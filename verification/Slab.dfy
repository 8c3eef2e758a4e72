/**
 One shard of the slab cache, updated in place. Its methods follow the source step by step,
 and each is proved to act on the map the shard holds.
 */
module Slab {
  import opened Common
  import opened SlabTable
  import opened SlabChains
  import opened SlabState

  /** Places in a fresh table and buckets in a fresh chain array. */
  const FIRST_PLACES: nat := 16

  class Inner<V> {
    /** Spreads keys over buckets; nothing is assumed of it. */
    const mix: Key -> nat

    var slots: seq<Slot<V>>
    var free: int
    var freeTail: int
    var table: seq<int>
    var chains: seq<int>
    var filled: int
    var hand: int
    var bytes: int

    ghost var view: View<V>

    ghost function Now(): State<V>
      reads this
    {
      State(slots, free, freeTail, table, chains, filled, hand, bytes)
    }

    ghost predicate ValidBut(unplaced: set<int>, unchained: set<int>)
      reads this
    {
      OkBut(Now(), view, mix, unplaced, unchained)
    }

    ghost predicate Valid()
      reads this
    {
      Ok(Now(), view, mix)
    }

    /** What the shard holds. */
    ghost function Contents(): map<Key, Entry<V>>
      reads this
    {
      view.contents
    }

    constructor (mix: Key -> nat)
      ensures Valid() && Contents() == map[] && this.mix == mix
    {
      this.mix := mix;
      slots, free, freeTail := [], NONE, NONE;
      table, chains := seq(FIRST_PLACES, i => NONE), seq(FIRST_PLACES, i => NONE);
      filled, hand, bytes := 0, 0, 0;
      view := View(map[], map[], map[], seq(FIRST_PLACES, i => []), []);
    }

    /** Probes for a key; the outcome is its slot exactly when the key is in the map. */
    method Find(key: Key) returns (found: Option<int>)
      requires Valid()
      ensures found == if key in Contents() then Some(view.slotOf[key]) else None
    {
      TableHasGap(Now(), view, mix, {}, {});
      found := Probe(key);
    }

    /** Probe from where a key mixes to, up to the key or an empty place. */
    method Probe(key: Key) returns (found: Option<int>)
      requires SlotsOk(slots, view.slotOf) && TableOk(table, slots, view.slotOf, view.placeOf, mix)
      requires |view.placeOf| < |table|
      ensures found == if key in view.placeOf then Some(view.slotOf[key]) else None
    {
      ghost var placeOf := view.placeOf;
      ghost var e := FindGap(table, slots, view.slotOf, placeOf);
      ghost var home := Home(mix, key, |table|);
      var at := Home(mix, key, |table|);
      while true
        invariant 0 <= at < |table|
        invariant Dist(home, at, |table|) <= Dist(home, e, |table|)
        invariant key in placeOf ==> Dist(home, at, |table|) <= Dist(home, placeOf[key], |table|)
        decreases Dist(at, e, |table|)
      {
        if table[at] == NONE {
          if key in placeOf {
            GapEndsSearch(table, placeOf, mix, key, at);
          }
          return None;
        }
        if slots[table[at]].key == key {
          return Some(table[at]);
        }
        RingStep(home, at, e, |table|);
        at := Next(at, |table|);
      }
    }

    /** The table index of a key that is known to be there. */
    method TableAt(key: Key) returns (at: int)
      requires SlotsOk(slots, view.slotOf) && TableOk(table, slots, view.slotOf, view.placeOf, mix)
      requires key in view.placeOf
      ensures at == view.placeOf[key]
    {
      ghost var home, place := Home(mix, key, |table|), view.placeOf[key];
      at := Home(mix, key, |table|);
      while true
        invariant 0 <= at < |table|
        invariant Dist(home, at, |table|) <= Dist(home, place, |table|)
        decreases Dist(at, place, |table|)
      {
        var slot := table[at];
        if slot != NONE && slots[slot].key == key {
          return;
        }
        RingStep(home, at, place, |table|);
        at := Next(at, |table|);
      }
    }

    /** Deletes without a tombstone: entries behind the gap that could not be found any more move up. */
    method TableRemove(key: Key)
      requires SlotsOk(slots, view.slotOf) && TableOk(table, slots, view.slotOf, view.placeOf, mix)
      requires key in view.placeOf && |view.placeOf| < |table|
      modifies this`table, this`view
      ensures TableOk(table, slots, view.slotOf, view.placeOf, mix)
      ensures |table| == old(|table|) && view == old(view).(placeOf := view.placeOf)
      ensures view.placeOf.Keys == old(view.placeOf.Keys) - {key}
    {
      ghost var slotOf, placeOf := view.slotOf, view.placeOf;
      ghost var e := FindGap(table, slots, slotOf, placeOf);
      ShiftOpens(table, slots, slotOf, placeOf, mix, key, e);
      var hole := TableAt(key);
      table := table[hole := NONE];
      placeOf := placeOf - {key};
      var probe := Next(hole, |table|);
      while true
        invariant |table| == old(|table|) && Shifting(table, slots, slotOf, placeOf, mix, hole, probe, e)
        invariant placeOf.Keys == old(view.placeOf.Keys) - {key} && view == old(view)
        decreases Dist(probe, e, |table|)
      {
        var slot := table[probe];
        if slot == NONE {
          ShiftEnds(table, slots, slotOf, placeOf, mix, hole, probe, e);
          view := view.(placeOf := placeOf);
          return;
        }
        RingStep(hole, probe, e, |table|);
        var home := Home(mix, slots[slot].key, |table|);
        // An entry whose probe passes the hole has to move there
        if Dist(hole, probe, |table|) <= Dist(home, probe, |table|) {
          ShiftMoves(table, slots, slotOf, placeOf, mix, hole, probe, e);
          table, placeOf := table[hole := slot][probe := NONE], placeOf[slots[slot].key := hole];
          hole := probe;
        } else {
          ShiftPasses(table, slots, slotOf, placeOf, mix, hole, probe, e);
        }
        probe := Next(probe, |table|);
      }
    }

    method TableInsert(slot: int)
      requires SlotsOk(slots, view.slotOf) && TableOk(table, slots, view.slotOf, view.placeOf, mix)
      requires 0 <= slot < |slots| && slots[slot].val.Some? && slots[slot].key !in view.placeOf
      requires |view.placeOf| < |table|
      modifies this`table, this`view
      ensures TableOk(table, slots, view.slotOf, view.placeOf, mix)
      ensures |table| == old(|table|) && view == old(view).(placeOf := view.placeOf)
      ensures view.placeOf.Keys == old(view.placeOf.Keys) + {slots[slot].key}
    {
      ghost var e := FindGap(table, slots, view.slotOf, view.placeOf);
      ghost var home := Home(mix, slots[slot].key, |table|);
      var at := Home(mix, slots[slot].key, |table|);
      while table[at] != NONE
        invariant table == old(table) && view == old(view) && 0 <= at < |table|
        invariant Dist(home, at, |table|) <= Dist(home, e, |table|)
        invariant Taken(table, home, Dist(home, at, |table|))
        decreases Dist(at, e, |table|)
      {
        TakenStep(table, home, at);
        RingStep(home, at, e, |table|);
        at := Next(at, |table|);
      }
      InsertKeepsTable(table, slots, view.slotOf, view.placeOf, mix, slot, at);
      table := table[at := slot];
      view := view.(placeOf := view.placeOf[slots[slot].key := at]);
    }

    method ChainLink(slot: int)
      requires 0 <= slot < |slots| && |chains| == |view.chain| > 0
      requires var head := chains[Bucket(mix, slots[slot].key, |chains|)]; head == NONE || 0 <= head < |slots|
      modifies this`slots, this`chains, this`view
      ensures Now() == Link(old(Now()), mix, slot)
      ensures view == LinkView(old(view), Bucket(mix, old(slots)[slot].key, |chains|), slot)
    {
      var bucket := Bucket(mix, slots[slot].key, |chains|);
      var head := chains[bucket];
      slots := slots[slot := slots[slot].(next := head, prev := NONE)];
      if head != NONE {
        slots := slots[head := slots[head].(prev := slot)];
      }
      chains := chains[bucket := slot];
      view := LinkView(view, bucket, slot);
    }

    method ChainUnlink(slot: int, ghost i: int)
      requires 0 <= slot < |slots| && |chains| == |view.chain| > 0
      requires slots[slot].prev == NONE || 0 <= slots[slot].prev < |slots|
      requires slots[slot].next == NONE || 0 <= slots[slot].next < |slots|
      requires 0 <= i < |view.chain[Bucket(mix, slots[slot].key, |chains|)]|
      modifies this`slots, this`chains, this`view
      ensures Now() == Unlink(old(Now()), mix, slot) && |slots| == old(|slots|)
      ensures view == UnlinkView(old(view), Bucket(mix, old(slots)[slot].key, |chains|), i)
    {
      view := UnlinkView(view, Bucket(mix, slots[slot].key, |chains|), i);
      var prev, next := slots[slot].prev, slots[slot].next;
      if prev == NONE {
        var bucket := Bucket(mix, slots[slot].key, |chains|);
        chains := chains[bucket := next];
      } else {
        slots := slots[prev := slots[prev].(next := next)];
      }
      if next != NONE {
        slots := slots[next := slots[next].(prev := prev)];
      }
    }

    /** Empty a slot and append it to the free list. */
    method GiveBack(at: int) returns (freed: int)
      requires 0 <= at < |slots| && (freeTail == NONE || 0 <= freeTail < |slots|)
      modifies this`slots, this`bytes, this`filled, this`free, this`freeTail, this`view
      ensures Now() == Vacate(old(Now()), at) && freed == old(slots)[at].weight
      ensures view == VacateView(old(view), old(slots)[at].key, at)
    {
      view := VacateView(view, slots[at].key, at);
      bytes := bytes - slots[at].weight;
      freed := slots[at].weight;
      slots := slots[at := slots[at].(val := None, hot := false, weight := 0, next := NONE)];
      if freeTail == NONE {
        free := at;
      } else {
        slots := slots[freeTail := slots[freeTail].(next := at)];
      }
      freeTail := at;
      filled := filled - 1;
    }

    /** Makes a filled slot findable and lists it under its segment. */
    method Place(slot: int, ghost unplaced: set<int>, ghost unchained: set<int>)
      requires ValidBut(unplaced, unchained)
      requires 0 <= slot < |slots| && slots[slot].val.Some? && slot in unplaced && slot in unchained
      modifies this`table, this`slots, this`chains, this`view
      ensures ValidBut(unplaced - {slot}, unchained - {slot})
      ensures SameEntries(old(slots), slots) && |table| == old(|table|)
      ensures Contents() == old(Contents()) && view.slotOf == old(view.slotOf)
    {
      TableHasGap(Now(), view, mix, unplaced, unchained);
      ghost var st, v := Now(), view;
      TableInsert(slot);
      PlaceKeeps(st, v, mix, unplaced, unchained, table, view.placeOf, slot);
      LinkKeeps(Now(), view, mix, unplaced - {slot}, unchained, slot);
      ChainLink(slot);
    }

    method DoubleEmpty()
      modifies this`table, this`chains, this`view
      ensures Now() == Emptied(old(Now())) && view == EmptiedView(old(view))
    {
      table := seq(|table| * 2, i => NONE);
      chains := seq(|chains| * 2, i => NONE);
      view := EmptiedView(view);
    }

    /** Twice the places and buckets, with every entry where a later probe will find it. */
    method Regrow()
      requires Valid()
      modifies this`table, this`slots, this`chains, this`view
      ensures Valid() && Contents() == old(Contents()) && view.slotOf == old(view.slotOf)
      ensures |table| == 2 * old(|table|) && |slots| == old(|slots|)
    {
      RegrowStarts(Now(), view, mix);
      DoubleEmpty();
      var slot := 0;
      while slot < |slots|
        invariant 0 <= slot <= |slots| == old(|slots|)
        invariant ValidBut(SlotsFrom(slot, |slots|), SlotsFrom(slot, |slots|))
        invariant Contents() == old(Contents()) && view.slotOf == old(view.slotOf) && |table| == 2 * old(|table|)
      {
        ghost var rest := SlotsFrom(slot, |slots|);
        if slots[slot].val.Some? {
          Place(slot, rest, rest);
        } else {
          VacantIsNotOwed(Now(), view, mix, rest, rest, slot);
        }
        SlotsFromStep(slot, |slots|);
        slot := slot + 1;
      }
    }

    /** Put an entry into the oldest vacancy or a new slot, off the table and the chains. */
    method FillSlot(key: Key, value: V, weight: nat) returns (slot: int)
      requires free == NONE || 0 <= free < |slots|
      modifies this`slots, this`free, this`freeTail, this`bytes, this`filled, this`view
      ensures Now() == Fill(old(Now()), key, value, weight) && slot == FilledSlot(old(Now()))
      ensures view == FillView(old(view), key, value, weight, slot)
    {
      if free == NONE {
        slots := slots + [Slot(key, None, 0, false, NONE, NONE)];
        slot := |slots| - 1;
      } else {
        slot := free;
        free := slots[free].next;
        if free == NONE {
          freeTail := NONE;
        }
      }
      // A new entry is unmarked: only being read again saves it from the hand
      slots := slots[slot := slots[slot].(key := key, val := Some(value), weight := weight, hot := false)];
      bytes := bytes + weight;
      filled := filled + 1;
      view := FillView(view, key, value, weight, slot);
    }

    /** Adds one entry to the map, regrowing first if it must. */
    method Put(key: Key, value: V, weight: nat)
      requires Valid() && key !in Contents() && |slots| < NONE
      modifies this
      ensures Valid() && Contents() == old(Contents())[key := Entry(value, weight, false)]
    {
      if (filled + 1) * SPREAD >= |table| {
        Regrow();
      }
      FillKeeps(Now(), view, mix, key, value, weight);
      var slot := FillSlot(key, value, weight);
      assert ValidBut({slot}, {slot}) && slots[slot].val.Some?;
      Place(slot, {slot}, {slot});
      assert {slot} - {slot} == {};
    }

    /** Vacates a slot no chain links any more. */
    method FreeSlot(at: int, ghost unchained: set<int>) returns (freed: int)
      requires ValidBut({}, unchained) && 0 <= at < |slots| && slots[at].val.Some? && at in unchained
      modifies this`slots, this`table, this`bytes, this`filled, this`free, this`freeTail, this`view
      ensures ValidBut({}, unchained - {at})
      ensures Contents() == old(Contents()) - {old(slots)[at].key}
      ensures freed == old(bytes) - bytes == old(slots)[at].weight
      ensures |slots| == old(|slots|)
      ensures slots == Vacated(old(slots), at, old(freeTail))
      ensures (old(freeTail) == NONE || old(slots)[old(freeTail)].val.None?)
    {
      TableHasGap(Now(), view, mix, {}, unchained);
      TailIsVacant(Now(), view);
      ghost var st, v := Now(), view;
      var key := slots[at].key;
      TableRemove(key);
      UnplaceKeeps(st, v, mix, {}, unchained, table, view.placeOf, at);
      VacateKeeps(Now(), view, mix, {} + {at}, unchained, at);
      freed := GiveBack(at);
      assert {} + {at} - {at} == {};
    }

    /** Vacates a slot wherever it is linked. */
    method DropSlot(at: int) returns (freed: int)
      requires Valid() && 0 <= at < |slots| && slots[at].val.Some?
      modifies this`slots, this`table, this`chains, this`bytes, this`filled, this`free, this`freeTail, this`view
      ensures Valid()
      ensures Contents() == old(Contents()) - {old(slots)[at].key}
      ensures freed == old(bytes) - bytes == old(slots)[at].weight && |slots| == old(|slots|)
    {
      ghost var i := PlaceInChain(Now(), view, mix, at);
      UnlinkKeeps(Now(), view, mix, {}, {}, Bucket(mix, slots[at].key, |chains|), i);
      ChainUnlink(at, i);
      freed := FreeSlot(at, {} + {at});
      assert {} + {at} - {at} == {};
    }

    /** Set or clear the read mark of a held slot. */
    method MarkSlot(at: int, hot: bool)
      requires Valid() && 0 <= at < |slots| && slots[at].val.Some?
      modifies this`slots, this`view
      ensures Valid() && Now() == Mark(old(Now()), at, hot)
      ensures slots[at].key in old(Contents()) && view == MarkView(old(view), slots[at].key, hot)
    {
      MarkKeeps(Now(), view, mix, at, hot);
      view := MarkView(view, slots[at].key, hot);
      slots := slots[at := slots[at].(hot := hot)];
    }

    /** A lookup that also sets the entry's mark. */
    method Read(key: Key) returns (found: Option<V>)
      requires Valid()
      modifies this`slots, this`view
      ensures Valid() && bytes == old(bytes)
      ensures key !in old(Contents()) ==> found == None && Contents() == old(Contents())
      ensures key in old(Contents()) ==>
                && found == Some(old(Contents())[key].value)
                && Contents() == old(Contents())[key := old(Contents())[key].(hot := true)]
    {
      var at := Find(key);
      if at.None? {
        return None;
      }
      HeldFacts(Now(), view, mix, key);
      found := slots[at.value].val;
      MarkSlot(at.value, true);
    }

    /** Removes one key; returns its value and its weight. */
    method Remove(key: Key) returns (held: Option<V>, freed: int)
      requires Valid()
      modifies this
      ensures Valid()
      ensures key !in old(Contents()) ==> held == None && freed == 0 && Contents() == old(Contents())
      ensures key in old(Contents()) ==>
                && held == Some(old(Contents())[key].value) && freed == old(Contents())[key].weight
                && Contents() == old(Contents()) - {key}
    {
      var at := Find(key);
      if at.None? {
        return None, 0;
      }
      HeldFacts(Now(), view, mix, key);
      held := slots[at.value].val;
      freed := DropSlot(at.value);
    }

    /** Removes a segment's entries without looking at any other bucket. */
    method Forget(segment: int) returns (freed: int)
      requires Valid()
      modifies this`slots, this`table, this`chains, this`bytes, this`filled, this`free, this`freeTail, this`view
      ensures Valid() && Contents() == Outside(old(Contents()), segment)
      ensures freed == old(TotalWeight(Contents())) - TotalWeight(Contents())
    {
      CountsHold(Now(), view, mix);
      var going := SplitChain(segment);
      DropSegment(view, slots, going, segment);
      freed := FreeAll(going);
      CountsHold(Now(), view, mix);
    }

    /** Give back the slots of a list, all off their chain already. */
    method FreeAll(going: seq<int>) returns (freed: int)
      requires Distinct(going)
      requires (forall i :: 0 <= i < |going| ==> 0 <= going[i] < |slots| && slots[going[i]].val.Some?)
      requires ValidBut({}, TailSet(going, 0))
      modifies this`slots, this`table, this`bytes, this`filled, this`free, this`freeTail, this`view
      ensures Valid() && Contents() == DropFirst(old(Contents()), old(slots), going, |going|)
      ensures freed == old(bytes) - bytes
    {
      freed := 0;
      var i := 0;
      while i < |going|
        invariant Freeing(old(slots), slots, old(Contents()), Contents(), going, i)
        invariant ValidBut({}, TailSet(going, i))
        invariant freed == old(bytes) - bytes
      {
        TailSetStep(going, i);
        ghost var was, held, tail := slots, Contents(), freeTail;
        var more := FreeSlot(going[i], TailSet(going, i));
        FreeingStep(old(slots), was, old(Contents()), held, going, i, tail);
        freed := freed + more;
        i := i + 1;
      }
    }

    /** Split a segment's chain into the slots that stay, linked anew, and those that go. */
    method SplitChain(segment: int) returns (going: seq<int>)
      requires Valid()
      modifies this`slots, this`chains, this`view
      ensures ValidBut({}, TailSet(going, 0)) && Distinct(going)
      ensures Contents() == old(Contents()) && bytes == old(bytes)
      ensures forall i :: 0 <= i < |going| ==>
        0 <= going[i] < |slots| && slots[going[i]].val.Some? && SegmentOf(slots[going[i]].key) == segment
      ensures forall k :: k in Contents() && SegmentOf(k) == segment ==> view.slotOf[k] in going
    {
      ghost var st, v := Now(), view;
      var bucket := Home(mix, SegmentKey(segment), |chains|);
      ChainIsHeld(st, v, mix, bucket);
      var kept: int;
      ghost var staying: seq<int>;
      kept, going, staying := WalkChain(segment, chains[bucket], view.chain[bucket]);
      SplitKeeps(st, v, mix, bucket, slots, segment, staying, going);
      SplitFindsSegment(st, v, mix, slots, segment, staying, going);
      assert TailSet(going, 0) == set s | s in going;
      Rechain(bucket, kept, staying);
    }

    method Rechain(bucket: int, kept: int, ghost staying: seq<int>)
      requires 0 <= bucket < |chains| == |view.chain|
      modifies this`chains, this`view
      ensures Now() == old(Now()).(chains := old(chains)[bucket := kept])
      ensures view == old(view).(chain := old(view).chain[bucket := staying])
    {
      chains := chains[bucket := kept];
      view := view.(chain := view.chain[bucket := staying]);
    }

    /** Walk one chain, linking what stays of it in front of each other. */
    method WalkChain(segment: int, head: int, ghost list: seq<int>)
      returns (kept: int, going: seq<int>, ghost staying: seq<int>)
      requires |slots| <= NONE && Linked(slots, list) && head == First(list)
      requires forall i :: 0 <= i < |list| ==> slots[list[i]].val.Some?
      modifies this`slots
      ensures Splitting(old(slots), slots, list, segment, |list|, staying, going) && kept == First(staying)
    {
      var at := head;
      kept := NONE;
      going, staying := [], [];
      ghost var i := 0;
      while at != NONE
        invariant Splitting(old(slots), slots, list, segment, i, staying, going)
        invariant kept == First(staying) && at == if i < |list| then list[i] else NONE
        decreases |list| - i
      {
        assert old(slots)[list[i]].next == After(list, i);
        assert at !in list[..i];
        var next := slots[at].next;
        if slots[at].val.Some? && SegmentOf(slots[at].key) == segment {
          SplitGoes(old(slots), slots, list, segment, i, staying, going);
          going := going + [at];
        } else {
          SplitStays(old(slots), slots, list, segment, i, staying, going);
          LinkBefore(at, kept);
          staying := [at] + staying;
          kept := at;
        }
        at := next;
        i := i + 1;
      }
    }

    method LinkBefore(at: int, kept: int)
      requires 0 <= at < |slots| && (kept == NONE || 0 <= kept < |slots|)
      modifies this`slots
      ensures slots == LinkedFront(old(slots), at, kept)
    {
      slots := slots[at := slots[at].(next := kept, prev := NONE)];
      if kept != NONE {
        slots := slots[kept := slots[kept].(prev := at)];
      }
    }

    /** Move the hand on one slot, clearing the mark of a read entry and stopping at an unread one. */
    method HandStep(ghost held: map<Key, Entry<V>>, ghost h: int, ghost count: int) returns (at: Option<int>)
      requires Valid() && Swept(held, Contents(), view.slotOf, h, |slots|, count) && count < 2 * |slots|
      requires hand == HandAt(h, |slots|, count)
      modifies this`hand, this`slots, this`view
      ensures Valid() && |slots| == old(|slots|) && view.slotOf == old(view.slotOf)
      ensures hand == HandAt(h, |slots|, count + 1)
      ensures at.None? ==> Swept(held, Contents(), view.slotOf, h, |slots|, count + 1)
      ensures at.Some? ==>
                && 0 <= at.value < |slots| && at.value == old(hand) == HandAt(h, |slots|, count)
                && Contents() == old(Contents()) && slots[at.value].val.Some?
                && slots[at.value].key in Contents() && slots[at.value].key in view.slotOf
                && view.slotOf[slots[at.value].key] == at.value
                && Contents()[slots[at.value].key] == EntryOf(slots[at.value]) && !slots[at.value].hot
    {
      SlotFacts(Now(), view, mix, hand);
      HandKeeps(Now(), view, mix, Next(hand, |slots|));
      var here := hand;
      hand := Next(hand, |slots|);
      if slots[here].val.None? {
        SweepPassesVacant(held, Contents(), view.slotOf, h, |slots|, count);
        return None;
      }
      if slots[here].hot {
        SweepCools(held, Contents(), view.slotOf, h, |slots|, count, slots[here].key);
        MarkSlot(here, false);
        return None;
      }
      return Some(here);
    }

    /** Turn the hand to the entry it gives up next. */
    method Sweep() returns (at: int)
      requires Valid() && Contents() != map[]
      modifies this`hand, this`slots, this`view
      ensures Valid() && view.slotOf == old(view.slotOf) && |slots| == old(|slots|)
      ensures 0 <= at < |slots| && slots[at].val.Some? && hand == Next(at, |slots|)
      ensures var victim := slots[at].key;
              && Victim(old(Contents()), Contents(), old(view.slotOf), old(hand), old(|slots|), victim)
              && view.slotOf[victim] == at && slots[at].weight == old(Contents())[victim].weight
    {
      at := 0;
      ghost var h, n, placed, held := hand, |slots|, view.slotOf, Contents();
      SweepStarts(Now(), view, mix);
      CountsHold(Now(), view, mix);
      var count := 0;
      while count < 2 * |slots|
        invariant Valid() && |slots| == n && view.slotOf == placed && |held| > 0
        invariant Swept(held, Contents(), placed, h, n, count) && count < 2 * n && hand == HandAt(h, n, count)
      {
        var met := HandStep(held, h, count);
        if met.Some? {
          SweepEnds(held, Contents(), placed, h, n, count, slots[met.value].key);
          HandAtStep(h, n, count);
          return met.value;
        }
        count := count + 1;
        SweepMeets(held, Contents(), placed, h, n, count);
      }
      assert false;
    }

    /** Removes the entry the hand settles on. */
    method Evict() returns (freed: Option<int>, ghost victim: Key, ghost swept: map<Key, Entry<V>>)
      requires Valid()
      modifies this
      ensures Valid()
      ensures old(Contents()) == map[] ==> freed == None && Contents() == map[] && |slots| == old(|slots|)
      ensures old(Contents()) != map[] ==>
                && freed.Some? && freed.value == old(bytes) - bytes
                && victim in old(Contents()) && freed.value == old(Contents())[victim].weight
                && Victim(old(Contents()), swept, old(view.slotOf), old(hand), old(|slots|), victim)
                && Contents() == swept - {victim} && |slots| == old(|slots|)
    {
      freed := None;
      victim, swept := 0, map[];
      CountsHold(Now(), view, mix);
      if filled == 0 {
        return;
      }
      var at := Sweep();
      victim := slots[at].key;
      swept := Contents();
      var weight := DropSlot(at);
      freed := Some(weight);
    }
  }
}
