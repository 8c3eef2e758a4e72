/**
 The open addressed table of one cache shard: probing, insertion, and removal by shifting
 the run behind the hole back. A probe finds every key the table places.
 */
module SlabTable {
  import opened Common

  /** `u32::MAX`, which is no slot: an unused place, or the end of a list. */
  const NONE: nat := 0xFFFF_FFFF

  /** A packed key holds its segment above this many values of column and block. */
  const SEGMENT_SPAN: nat := 0x1_0000_0000

  type Key = int

  /** And its column above this many blocks. */
  const BLOCKS: nat := 0x100_0000

  const COLUMNS: nat := 0x100

  function SegmentOf(key: Key): int { key / SEGMENT_SPAN }

  function SegmentKey(segment: int): Key { segment * SEGMENT_SPAN }

  /** One key out of segment, column and block; a block past the highest is cut to its low bits. */
  function HoldKey(segment: int, column: nat, block: nat): Key {
    segment * SEGMENT_SPAN + column * BLOCKS + block % BLOCKS
  }

  /** A packed key has the segment it was packed with. */
  lemma SegmentUnpacks(segment: int, column: nat, block: nat)
    requires column < COLUMNS
    ensures SegmentOf(HoldKey(segment, column, block)) == segment && SegmentOf(SegmentKey(segment)) == segment
  {}

  /** Different segments, columns or blocks never share a key, and a whole segment's key is that of its first block. */
  lemma KeysApart(s: int, c: nat, b: nat, t: int, d: nat, e: nat)
    requires c < COLUMNS && d < COLUMNS && b < BLOCKS && e < BLOCKS
    ensures HoldKey(s, c, b) == HoldKey(t, d, e) <==> s == t && c == d && b == e
    ensures HoldKey(s, c, b) == SegmentKey(t) <==> s == t && c == 0 && b == 0
  {
    SegmentUnpacks(s, c, b);
    SegmentUnpacks(t, d, e);
  }

  /** An element of the slab, in use or vacant. */
  datatype Slot<V> = Slot(key: Key, val: Option<V>, weight: nat, hot: bool, next: int, prev: int)

  /** Held slots and keys name each other. */
  ghost predicate SlotsOk<V>(slots: seq<Slot<V>>, slotOf: map<Key, int>) {
    && |slots| <= NONE
    && (forall k :: k in slotOf ==> 0 <= slotOf[k] < |slots| && slots[slotOf[k]].key == k && slots[slotOf[k]].val.Some?)
    && (forall s :: 0 <= s < |slots| && slots[s].val.Some? ==> slots[s].key in slotOf && slotOf[slots[s].key] == s)
  }

  // ---- the ring of table places ----

  /** The place after `a` on a ring of `n`, which the source masks. */
  function Next(a: int, n: int): (r: int)
    requires 0 <= a < n
    ensures 0 <= r < n
  {
    if a + 1 == n then 0 else a + 1
  }

  /** How many steps lead from `h` round to `a`. */
  function Dist(h: int, a: int, n: int): (r: int)
    requires 0 <= h < n && 0 <= a < n
    ensures 0 <= r < n
  {
    if h <= a then a - h else a + n - h
  }

  function Home(mix: Key -> nat, key: Key, n: int): (r: int)
    requires n > 0
    ensures 0 <= r < n
  {
    mix(key) % n
  }

  /** The first `steps` places met when walking round from `home` are all taken. */
  ghost predicate Taken(table: seq<int>, home: int, steps: int)
    requires 0 <= home < |table|
  {
    forall b :: 0 <= b < |table| && Dist(home, b, |table|) < steps ==> table[b] != NONE
  }

  /** Every place from a key's home round to where it sits is taken. */
  ghost predicate Reachable(table: seq<int>, mix: Key -> nat, key: Key, place: int)
    requires 0 <= place < |table|
  {
    var home := Home(mix, key, |table|);
    Taken(table, home, Dist(home, place, |table|) + 1)
  }

  /** The table and `placeOf` are inverse to each other. */
  ghost predicate TablePlaces<V>(table: seq<int>, slots: seq<Slot<V>>, slotOf: map<Key, int>, placeOf: map<Key, int>) {
    && |table| > 0
    && (forall k :: k in placeOf ==> k in slotOf && 0 <= placeOf[k] < |table| && table[placeOf[k]] == slotOf[k])
    && (forall a :: 0 <= a < |table| && table[a] != NONE ==>
          0 <= table[a] < |slots| && slots[table[a]].key in placeOf && placeOf[slots[table[a]].key] == a)
  }

  ghost predicate AllReachable(table: seq<int>, placeOf: map<Key, int>, mix: Key -> nat)
    requires forall k :: k in placeOf ==> 0 <= placeOf[k] < |table|
  {
    forall k {:trigger Reachable(table, mix, k, placeOf[k])} :: k in placeOf ==> Reachable(table, mix, k, placeOf[k])
  }

  /** The table places exactly the keys of `placeOf`, each reachable from its home. */
  ghost predicate TableOk<V>(table: seq<int>, slots: seq<Slot<V>>, slotOf: map<Key, int>, placeOf: map<Key, int>,
                             mix: Key -> nat) {
    && TablePlaces(table, slots, slotOf, placeOf)
    && AllReachable(table, placeOf, mix)
  }

  // ---- walking round the ring ----

  /** A step that has not reached `e` yet comes one closer to it and takes in one more place. */
  lemma RingStep(home: int, at: int, e: int, n: int)
    requires 0 <= home < n && 0 <= at < n && 0 <= e < n && at != e
    requires Dist(home, at, n) <= Dist(home, e, n)
    ensures Dist(home, Next(at, n), n) == Dist(home, at, n) + 1 <= Dist(home, e, n)
    ensures Dist(Next(at, n), e, n) < Dist(at, e, n)
  {}

  lemma TakenStep(table: seq<int>, home: int, at: int)
    requires 0 <= home < |table| && 0 <= at < |table| && table[at] != NONE
    requires Taken(table, home, Dist(home, at, |table|))
    ensures Taken(table, home, Dist(home, at, |table|) + 1)
  {
    forall b | 0 <= b < |table| && Dist(home, b, |table|) < Dist(home, at, |table|) + 1 ensures table[b] != NONE {
      assert b == at || Dist(home, b, |table|) < Dist(home, at, |table|);
    }
  }

  /** A key still to come on its path is met before any empty place. */
  lemma GapEndsSearch(table: seq<int>, placeOf: map<Key, int>, mix: Key -> nat, key: Key, at: int)
    requires forall k :: k in placeOf ==> 0 <= placeOf[k] < |table|
    requires AllReachable(table, placeOf, mix) && 0 <= at < |table| && table[at] == NONE && key in placeOf
    ensures Dist(Home(mix, key, |table|), placeOf[key], |table|) < Dist(Home(mix, key, |table|), at, |table|)
  {
    assert Reachable(table, mix, key, placeOf[key]);
  }

  // ---- a table with fewer keys than places has an empty place ----

  ghost function PlacedBelow(placeOf: map<Key, int>, m: int): set<Key> {
    set k | k in placeOf && 0 <= placeOf[k] < m
  }

  lemma {:induction false} FullPrefixCount<V>(table: seq<int>, slots: seq<Slot<V>>, slotOf: map<Key, int>,
      placeOf: map<Key, int>, m: int)
    requires SlotsOk(slots, slotOf) && TablePlaces(table, slots, slotOf, placeOf)
    requires 0 <= m <= |table| && forall a :: 0 <= a < m ==> table[a] != NONE
    ensures |PlacedBelow(placeOf, m)| == m
  {
    if m == 0 {
      assert PlacedBelow(placeOf, 0) == {};
    } else {
      FullPrefixCount(table, slots, slotOf, placeOf, m - 1);
      assert table[m - 1] != NONE;
      var k := slots[table[m - 1]].key;
      assert PlacedBelow(placeOf, m) == PlacedBelow(placeOf, m - 1) + {k} by {
        forall j | j in placeOf && placeOf[j] == m - 1 ensures j == k {
          assert table[placeOf[j]] == slotOf[j];
        }
      }
    }
  }

  lemma FindGap<V>(table: seq<int>, slots: seq<Slot<V>>, slotOf: map<Key, int>, placeOf: map<Key, int>) returns (e: int)
    requires SlotsOk(slots, slotOf) && TablePlaces(table, slots, slotOf, placeOf)
    requires |placeOf| < |table|
    ensures 0 <= e < |table| && table[e] == NONE
  {
    assert PlacedBelow(placeOf, |table|) == placeOf.Keys by {
      forall k | k in placeOf ensures k in PlacedBelow(placeOf, |table|) {
        assert placeOf[k] < |table|;
      }
    }
    if forall a :: 0 <= a < |table| ==> table[a] != NONE {
      FullPrefixCount(table, slots, slotOf, placeOf, |table|);
    }
    e :| 0 <= e < |table| && table[e] == NONE;
  }

  lemma InsertKeepsTable<V>(table: seq<int>, slots: seq<Slot<V>>, slotOf: map<Key, int>, placeOf: map<Key, int>,
                            mix: Key -> nat, slot: int, at: int)
    requires SlotsOk(slots, slotOf) && TableOk(table, slots, slotOf, placeOf, mix)
    requires 0 <= slot < |slots| && slots[slot].val.Some? && slots[slot].key !in placeOf
    requires 0 <= at < |table| && table[at] == NONE
    requires Taken(table, Home(mix, slots[slot].key, |table|), Dist(Home(mix, slots[slot].key, |table|), at, |table|))
    ensures TableOk(table[at := slot], slots, slotOf, placeOf[slots[slot].key := at], mix)
  {
    var after, placed := table[at := slot], placeOf[slots[slot].key := at];
    forall k | k in placed ensures Reachable(after, mix, k, placed[k]) {
      if k == slots[slot].key {
        TakenStep(after, Home(mix, k, |table|), at);
      } else {
        assert Reachable(table, mix, k, placeOf[k]);
      }
    }
  }

  // ---- closing the hole a removal leaves ----

  /** Like `Taken`, but for one hole the path may cross. */
  ghost predicate TakenBut(table: seq<int>, home: int, steps: int, hole: int)
    requires 0 <= home < |table|
  {
    forall b :: 0 <= b < |table| && Dist(home, b, |table|) < steps ==> table[b] != NONE || b == hole
  }

  ghost predicate ReachableBut(table: seq<int>, mix: Key -> nat, key: Key, place: int, hole: int)
    requires 0 <= place < |table|
  {
    var home := Home(mix, key, |table|);
    TakenBut(table, home, Dist(home, place, |table|) + 1, hole)
  }

  ghost predicate AllReachableBut(table: seq<int>, placeOf: map<Key, int>, mix: Key -> nat, hole: int)
    requires forall k :: k in placeOf ==> 0 <= placeOf[k] < |table|
  {
    forall k {:trigger ReachableBut(table, mix, k, placeOf[k], hole)} ::
      k in placeOf ==> ReachableBut(table, mix, k, placeOf[k], hole)
  }

  /** A key sitting between the hole and the probe does not have the hole on its path. */
  ghost predicate PassedKey(mix: Key -> nat, key: Key, place: int, n: int, hole: int, probe: int)
    requires 0 <= hole < n && 0 <= probe < n && 0 <= place < n
  {
    0 < Dist(hole, place, n) < Dist(hole, probe, n) ==>
      Dist(Home(mix, key, n), place, n) < Dist(Home(mix, key, n), hole, n)
  }

  ghost predicate Passed(placeOf: map<Key, int>, mix: Key -> nat, n: int, hole: int, probe: int)
    requires 0 <= hole < n && 0 <= probe < n && forall k :: k in placeOf ==> 0 <= placeOf[k] < n
  {
    forall k {:trigger PassedKey(mix, k, placeOf[k], n, hole, probe)} ::
      k in placeOf ==> PassedKey(mix, k, placeOf[k], n, hole, probe)
  }

  /** A path over the hole runs on over every place behind it. */
  lemma PathCrosses(home: int, hole: int, probe: int, place: int, n: int)
    requires 0 <= home < n && 0 <= hole < n && 0 <= probe < n && 0 <= place < n
    requires Dist(home, hole, n) <= Dist(home, place, n)
    requires Dist(hole, probe, n) <= Dist(hole, place, n)
    ensures Dist(home, probe, n) <= Dist(home, place, n)
  {}

  /** A removal midway: one hole, every path whole but for it, and the run up to the probe passed. */
  ghost predicate Shifting<V>(table: seq<int>, slots: seq<Slot<V>>, slotOf: map<Key, int>, placeOf: map<Key, int>,
                              mix: Key -> nat,
                              hole: int, probe: int, e: int)
  {
    && TablePlaces(table, slots, slotOf, placeOf)
    && 0 <= hole < |table| && 0 <= probe < |table| && 0 <= e < |table| && hole != probe && e != hole
    && table[hole] == NONE && table[e] == NONE
    && Dist(hole, probe, |table|) <= Dist(hole, e, |table|)
    && AllReachableBut(table, placeOf, mix, hole)
    && Passed(placeOf, mix, |table|, hole, probe)
  }

  lemma ShiftOpens<V>(table: seq<int>, slots: seq<Slot<V>>, slotOf: map<Key, int>, placeOf: map<Key, int>,
                      mix: Key -> nat, key: Key, e: int)
    requires SlotsOk(slots, slotOf) && TableOk(table, slots, slotOf, placeOf, mix)
    requires key in placeOf && 0 <= e < |table| && table[e] == NONE
    ensures var hole := placeOf[key];
            Shifting(table[hole := NONE], slots, slotOf, placeOf - {key}, mix, hole, Next(hole, |table|), e)
  {
    var hole := placeOf[key];
    var holed, kept := table[hole := NONE], placeOf - {key};
    forall k | k in kept ensures ReachableBut(holed, mix, k, kept[k], hole) {
      assert Reachable(table, mix, k, placeOf[k]);
    }
    forall k | k in kept ensures PassedKey(mix, k, kept[k], |table|, hole, Next(hole, |table|)) {}
  }

  /** An entry whose path misses the hole stays where it is. */
  lemma ShiftPasses<V>(table: seq<int>, slots: seq<Slot<V>>, slotOf: map<Key, int>, placeOf: map<Key, int>,
                       mix: Key -> nat,
                       hole: int, probe: int, e: int)
    requires SlotsOk(slots, slotOf) && Shifting(table, slots, slotOf, placeOf, mix, hole, probe, e)
    requires table[probe] != NONE
    requires Dist(hole, probe, |table|) > Dist(Home(mix, slots[table[probe]].key, |table|), probe, |table|)
    ensures Shifting(table, slots, slotOf, placeOf, mix, hole, Next(probe, |table|), e)
  {
    var n := |table|;
    RingStep(hole, probe, e, n);
    forall k | k in placeOf ensures PassedKey(mix, k, placeOf[k], n, hole, Next(probe, n)) {
      assert PassedKey(mix, k, placeOf[k], n, hole, probe);
      if placeOf[k] == probe {
        assert slots[table[probe]].key == k;
      }
    }
  }

  /** An entry whose path crosses the hole moves back into it and opens a hole where it sat. */
  lemma ShiftMoves<V>(table: seq<int>, slots: seq<Slot<V>>, slotOf: map<Key, int>, placeOf: map<Key, int>,
                      mix: Key -> nat,
                      hole: int, probe: int, e: int)
    requires SlotsOk(slots, slotOf) && Shifting(table, slots, slotOf, placeOf, mix, hole, probe, e)
    requires table[probe] != NONE
    requires Dist(hole, probe, |table|) <= Dist(Home(mix, slots[table[probe]].key, |table|), probe, |table|)
    ensures Shifting(table[hole := table[probe]][probe := NONE], slots, slotOf,
      placeOf[slots[table[probe]].key := hole], mix,
                     probe, Next(probe, |table|), e)
  {
    var n := |table|;
    var mover := slots[table[probe]].key;
    RingStep(hole, probe, e, n);
    var after := table[hole := table[probe]][probe := NONE];
    var placed := placeOf[mover := hole];
    assert TablePlaces(after, slots, slotOf, placed);
    forall k | k in placed ensures ReachableBut(after, mix, k, placed[k], probe) {
      assert ReachableBut(table, mix, k, placeOf[k], hole);
      if k == mover {
        assert Dist(Home(mix, mover, n), hole, n) < Dist(Home(mix, mover, n), probe, n);
      }
    }
    forall k | k in placed ensures PassedKey(mix, k, placed[k], n, probe, Next(probe, n)) {}
  }

  /** Once the probe stands on an empty place no path crosses the hole. */
  lemma ShiftEnds<V>(table: seq<int>, slots: seq<Slot<V>>, slotOf: map<Key, int>, placeOf: map<Key, int>,
                     mix: Key -> nat,
                     hole: int, probe: int, e: int)
    requires SlotsOk(slots, slotOf) && Shifting(table, slots, slotOf, placeOf, mix, hole, probe, e)
    requires table[probe] == NONE
    ensures TableOk(table, slots, slotOf, placeOf, mix)
  {
    var n := |table|;
    forall k | k in placeOf ensures Reachable(table, mix, k, placeOf[k]) {
      assert ReachableBut(table, mix, k, placeOf[k], hole);
      assert PassedKey(mix, k, placeOf[k], n, hole, probe);
      if Dist(Home(mix, k, n), hole, n) <= Dist(Home(mix, k, n), placeOf[k], n) {
        PathCrosses(Home(mix, k, n), hole, probe, placeOf[k], n);
      }
    }
  }
}
