/**
 The bounded cache over several shards, each call taken alone: one byte budget across all of them,
 and one map from keys to what is held.
 */
module Hold {
  import opened Common
  import opened SlabTable
  import opened SlabState
  import opened Slab

  // ---- one map cut into shards ----

  /** Every key is held by the shard it is asked of. */
  ghost predicate PartsOk<V>(parts: seq<map<Key, Entry<V>>>, shardOf: Key -> int) {
    && (forall k :: 0 <= shardOf(k) < |parts|)
    && (forall i, k :: 0 <= i < |parts| && k in parts[i] ==> shardOf(k) == i)
  }

  /** What the shards hold together. */
  ghost function Whole<V>(parts: seq<map<Key, Entry<V>>>): map<Key, Entry<V>> {
    if parts == [] then map[] else Whole(parts[..|parts| - 1]) + parts[|parts| - 1]
  }

  /** The shards' weights, added up. */
  ghost function Weights<V>(parts: seq<map<Key, Entry<V>>>): int {
    if parts == [] then 0 else Weights(parts[..|parts| - 1]) + TotalWeight(parts[|parts| - 1])
  }

  lemma {:induction false} WholeHolds<V>(parts: seq<map<Key, Entry<V>>>, k: Key)
    ensures k in Whole(parts) <==> exists i :: 0 <= i < |parts| && k in parts[i]
    ensures k in Whole(parts) ==> exists i :: 0 <= i < |parts| && k in parts[i] && Whole(parts)[k] == parts[i][k]
  {
    if parts != [] {
      var n := |parts| - 1;
      WholeHolds(parts[..n], k);
      if k in parts[n] {
        assert Whole(parts)[k] == parts[n][k];
      } else {
        assert forall i :: 0 <= i < n ==> parts[..n][i] == parts[i];
        if k in Whole(parts[..n]) {
          var i :| 0 <= i < n && k in parts[..n][i] && Whole(parts[..n])[k] == parts[..n][i][k];
          assert k in parts[i] && Whole(parts)[k] == parts[i][k];
        }
      }
    }
  }

  /** The whole map answers a key as the key's own shard does. */
  lemma WholeAsks<V>(parts: seq<map<Key, Entry<V>>>, shardOf: Key -> int, k: Key)
    requires PartsOk(parts, shardOf)
    ensures var own := parts[shardOf(k)]; (k in Whole(parts) <==> k in own) && (k in own ==> Whole(parts)[k] == own[k])
  {
    WholeHolds(parts, k);
  }

  /** A change of one shard changes the whole weight by as much. */
  lemma {:induction false} WeightsChange<V>(parts: seq<map<Key, Entry<V>>>, i: int, part: map<Key, Entry<V>>)
    requires 0 <= i < |parts|
    ensures Weights(parts[i := part]) == Weights(parts) - TotalWeight(parts[i]) + TotalWeight(part)
  {
    var n := |parts| - 1;
    if i == n {
      assert parts[i := part][..n] == parts[..n];
    } else {
      assert parts[i := part][..n] == parts[..n][i := part];
      WeightsChange(parts[..n], i, part);
    }
  }

  /** Whatever the shards, the whole weight is the weight of the whole map. */
  lemma {:induction false} WeightsOfWhole<V>(parts: seq<map<Key, Entry<V>>>)
    requires forall i, j, k :: 0 <= i < j < |parts| && k in parts[i] ==> k !in parts[j]
    ensures Weights(parts) == TotalWeight(Whole(parts))
  {
    if parts != [] {
      var n := |parts| - 1;
      WeightsOfWhole(parts[..n]);
      forall k | k in parts[n] ensures k !in Whole(parts[..n]) {
        WholeHolds(parts[..n], k);
      }
      WeightOfUnion(Whole(parts[..n]), parts[n]);
    } else {
      assert TotalWeight<V>(map[]) == 0;
    }
  }

  lemma UnionNothing<V>(a: map<Key, Entry<V>>, b: map<Key, Entry<V>>)
    requires |b| == 0
    ensures a + b == a && TotalWeight(b) == 0
  {
    assert b == map[];
  }

  lemma UnionWithout<V>(a: map<Key, Entry<V>>, b: map<Key, Entry<V>>, k: Key)
    requires k !in a
    ensures a + b - {k} == a + (b - {k})
  {}

  lemma {:induction false} WeightOfUnion<V>(a: map<Key, Entry<V>>, b: map<Key, Entry<V>>)
    requires a.Keys !! b.Keys
    ensures TotalWeight(a + b) == TotalWeight(a) + TotalWeight(b)
    decreases |b|
  {
    if |b| == 0 {
      UnionNothing(a, b);
    } else {
      var k := PickHeld(b);
      WeightOfUnion(a, b - {k});
      TotalWeightWithout(b, k);
      TotalWeightWithout(a + b, k);
      UnionWithout(a, b, k);
    }
  }

  /** The whole map after one key's shard changed at that key alone. */
  lemma WholePut<V>(parts: seq<map<Key, Entry<V>>>, shardOf: Key -> int, key: Key, e: Entry<V>)
    requires PartsOk(parts, shardOf)
    ensures var i := shardOf(key);
            PartsOk(parts[i := parts[i][key := e]], shardOf)
              && Whole(parts[i := parts[i][key := e]]) == Whole(parts)[key := e]
  {
    var i := shardOf(key);
    var after := parts[i := parts[i][key := e]];
    forall k
      ensures k in Whole(after) <==> k in Whole(parts)[key := e]
      ensures k in Whole(after) ==> Whole(after)[k] == Whole(parts)[key := e][k]
    {
      WholeAsks(parts, shardOf, k);
      WholeAsks(after, shardOf, k);
    }
  }

  lemma WholeTake<V>(parts: seq<map<Key, Entry<V>>>, shardOf: Key -> int, key: Key)
    requires PartsOk(parts, shardOf)
    ensures var i := shardOf(key);
            PartsOk(parts[i := parts[i] - {key}], shardOf)
              && Whole(parts[i := parts[i] - {key}]) == Whole(parts) - {key}
  {
    var i := shardOf(key);
    var after := parts[i := parts[i] - {key}];
    forall k
      ensures k in Whole(after) <==> k in Whole(parts) - {key}
      ensures k in Whole(after) ==> Whole(after)[k] == (Whole(parts) - {key})[k]
    {
      WholeAsks(parts, shardOf, k);
      WholeAsks(after, shardOf, k);
    }
  }

  class Cache<V> {
    const budget: nat

    /** Picks a key's shard; nothing is assumed of it but its range. */
    const shardOf: Key -> int

    const shards: seq<Inner<V>>

    var bytes: int

    ghost var parts: seq<map<Key, Entry<V>>>

    /** What the cache holds. */
    ghost function Contents(): map<Key, Entry<V>>
      reads this
    {
      Whole(parts)
    }

    /** One shard is valid and holds its part. */
    ghost predicate ShardOk(i: int)
      requires 0 <= i < |shards| == |parts|
      reads this`parts, shards[i]
    {
      shards[i].Valid() && shards[i].Contents() == parts[i]
    }

    ghost function Others(i: int): set<Inner<V>> {
      set j | 0 <= j < |shards| && j != i :: shards[j]
    }

    /** Every shard but one is valid and holds its part. */
    ghost predicate OthersOk(i: int)
      requires 0 <= i < |shards| == |parts|
      reads this`parts, Others(i)
    {
      forall j {:trigger ShardOk(j)} :: 0 <= j < |shards| && j != i ==> ShardOk(j)
    }

    ghost predicate ShardsOk()
      reads this`parts, shards
    {
      var ok := |shards| == |parts| > 0 && Distinct(shards) && forall i {:trigger ShardOk(i)} ::
        0 <= i < |shards| ==> ShardOk(i);
      ok
    }

    ghost predicate Valid()
      reads this, shards
    {
      ShardsOk() && PartsOk(parts, shardOf) && bytes == Weights(parts) <= budget
    }

    lemma Focus(i: int)
      requires ShardsOk() && 0 <= i < |shards|
      ensures OthersOk(i) && shards[i] !in Others(i)
      ensures ShardOk(i)
    {}

    /** What one shard does leaves the others as they were. */
    twostate lemma OthersStay(i: int)
      requires 0 <= i < |shards| == |parts| && parts == old(parts) && old(OthersOk(i))
      requires forall j {:trigger shards[j]} :: 0 <= j < |shards| && j != i ==> unchanged(shards[j])
      ensures OthersOk(i)
    {
      forall j | 0 <= j < |shards| && j != i ensures ShardOk(j) { assert old(ShardOk(j)) && unchanged(shards[j]); }
    }

    /** Book what a shard holds now as its part. */
    ghost method Refresh(i: int, part: map<Key, Entry<V>>)
      requires 0 <= i < |shards| == |parts| && Distinct(shards)
      requires OthersOk(i) && shards[i].Valid() && shards[i].Contents() == part
      modifies this`parts
      ensures parts == old(parts)[i := part] && ShardsOk()
    {
      parts := parts[i := part];
      forall j | 0 <= j < |shards| && j != i ensures ShardOk(j) {
        assert old(ShardOk(j));
      }
      assert ShardOk(i);
    }

    constructor (budget: nat, shardOf: Key -> int, shards: seq<Inner<V>>)
      requires |shards| > 0 && Distinct(shards) && forall k :: 0 <= shardOf(k) < |shards|
      requires forall i :: 0 <= i < |shards| ==> shards[i].Valid() && shards[i].Contents() == map[]
      ensures Valid() && Contents() == map[] && this.shards == shards && this.budget == budget
    {
      this.budget, this.shardOf, this.shards := budget, shardOf, shards;
      bytes := 0;
      parts := seq(|shards|, i => map[]);
      new;
      EmptyParts(parts);
    }

    // Each of a shard's operations, with the part it leaves booked

    method ReadIn(i: int, key: Key) returns (found: Option<V>)
      requires ShardsOk() && 0 <= i < |shards|
      modifies this`parts, shards[i]
      ensures ShardsOk()
      ensures key !in old(parts)[i] ==> found == None && parts == old(parts)
      ensures key in old(parts)[i] ==>
        found == Some(old(parts)[i][key].value) && parts == old(parts)[i := Marked(old(parts)[i], key)]
    {
      Focus(i);
      ghost var part := if key in parts[i] then Marked(parts[i], key) else parts[i];
      found := shards[i].Read(key);
      OthersStay(i);
      Refresh(i, part);
    }

    method RemoveIn(i: int, key: Key) returns (held: Option<V>, freed: int)
      requires ShardsOk() && 0 <= i < |shards|
      modifies this`parts, shards[i]
      ensures ShardsOk()
      ensures key !in old(parts)[i] ==> held == None && freed == 0 && parts == old(parts)
      ensures key in old(parts)[i] ==>
                && held == Some(old(parts)[i][key].value) && freed == old(parts)[i][key].weight
                && parts == old(parts)[i := old(parts)[i] - {key}]
    {
      Focus(i);
      ghost var part := if key in parts[i] then parts[i] - {key} else parts[i];
      held, freed := shards[i].Remove(key);
      OthersStay(i);
      Refresh(i, part);
    }

    method ForgetIn(i: int, segment: int) returns (freed: int)
      requires ShardsOk() && 0 <= i < |shards|
      modifies this`parts, shards[i]
      ensures ShardsOk() && parts == old(parts)[i := Outside(old(parts)[i], segment)]
      ensures freed == TotalWeight(old(parts)[i]) - TotalWeight(parts[i])
    {
      Focus(i);
      freed := shards[i].Forget(segment);
      OthersStay(i);
      Refresh(i, Outside(parts[i], segment));
    }

    method PutIn(i: int, key: Key, value: V, weight: nat)
      requires ShardsOk() && 0 <= i < |shards| && key !in parts[i] && |shards[i].slots| < NONE
      modifies this`parts, shards[i]
      ensures ShardsOk() && parts == old(parts)[i := old(parts)[i][key := Entry(value, weight, false)]]
    {
      Focus(i);
      shards[i].Put(key, value, weight);
      OthersStay(i);
      Refresh(i, parts[i][key := Entry(value, weight, false)]);
    }

    method EvictIn(i: int) returns (freed: Option<int>, ghost victim: Key)
      requires ShardsOk() && 0 <= i < |shards|
      modifies this`parts, shards[i]
      ensures ShardsOk() && |shards[i].slots| == old(|shards[i].slots|) && |parts| == old(|parts|)
      ensures freed.None? <==> old(parts)[i] == map[]
      ensures freed.None? ==> parts == old(parts)
      ensures freed.Some? ==>
                && parts == old(parts)[i := parts[i]] && KeptFrom(parts[i], old(parts)[i])
                && TotalWeight(parts[i]) == TotalWeight(old(parts)[i]) - freed.value && freed.value >= 0
                && |parts[i]| < |old(parts)[i]| && victim in old(parts)[i] && victim !in parts[i]
                && freed.value == old(parts)[i][victim].weight
    {
      Focus(i);
      ghost var swept;
      freed, victim, swept := shards[i].Evict();
      OthersStay(i);
      if freed.Some? {
        EvictKeeps(parts[i], swept, old(shards[i].view.slotOf), old(shards[i].hand), old(|shards[i].slots|), victim);
      }
      Refresh(i, shards[i].Contents());
    }

    /** Looks a key up in its shard; a hit protects the entry from the next turn of the hand. */
    method Get(key: Key) returns (found: Option<V>)
      requires Valid()
      modifies this`parts, shards
      ensures Valid()
      ensures found == if key in old(Contents()) then Some(old(Contents())[key].value) else None
      ensures Contents() == if key in old(Contents()) then Marked(old(Contents()), key) else old(Contents())
    {
      WholeAsks(parts, shardOf, key);
      var i := shardOf(key);
      if key in Whole(parts) {
        WholePut(parts, shardOf, key, Marked(parts[i], key)[key]);
        WeightsChange(parts, i, Marked(parts[i], key));
        MarkWeighs(parts[i], key);
      }
      found := ReadIn(i, key);
    }

    /** Removes a key and returns its value, if any. */
    method Take(key: Key) returns (held: Option<V>)
      requires Valid()
      modifies this, shards
      ensures Valid()
      ensures held == if key in old(Contents()) then Some(old(Contents())[key].value) else None
      ensures Contents() == old(Contents()) - {key}
    {
      WholeAsks(parts, shardOf, key);
      var i := shardOf(key);
      if key in Whole(parts) {
        WholeTake(parts, shardOf, key);
        WeightsChange(parts, i, parts[i] - {key});
        TotalWeightWithout(parts[i], key);
      } else {
        assert Whole(parts) - {key} == Whole(parts);
      }
      var freed: int;
      held, freed := RemoveIn(i, key);
      bytes := bytes - freed;
    }

    /**
     Give up entries of one shard until a weight fits the budget, and no more than that takes, or say that the shard
     has none left.
     */
    method MakeRoom(i: int, weight: nat) returns (fits: bool)
      requires Valid() && 0 <= i < |shards| && weight <= budget
      modifies this, shards[i]
      ensures Valid() && |parts| == old(|parts|) && |shards[i].slots| == old(|shards[i].slots|)
      ensures parts == old(parts)[i := parts[i]] && KeptFrom(parts[i], old(parts)[i])
      ensures fits <==> bytes + weight <= budget
      ensures !fits ==> parts[i] == map[]
      ensures old(bytes) + weight <= budget ==> parts == old(parts)
      ensures old(bytes) + weight > budget && fits ==> OneFills(old(parts)[i], parts[i], budget - weight - bytes)
    {
      while bytes + weight > budget
        invariant Valid() && |parts| == old(|parts|) && |shards[i].slots| == old(|shards[i].slots|)
        invariant parts == old(parts)[i := parts[i]] && KeptFrom(parts[i], old(parts)[i])
        invariant old(bytes) + weight <= budget ==> parts == old(parts) && bytes == old(bytes)
        invariant bytes == old(bytes) || OneFills(old(parts)[i], parts[i], budget - weight - bytes)
        decreases |parts[i]|
      {
        ghost var was := parts;
        var freed: Option<int>;
        ghost var victim;
        freed, victim := EvictIn(i);
        // Nothing more to evict here: the entry is refused rather than the budget passed
        if freed.None? {
          return false;
        }
        WeightsChange(was, i, parts[i]);
        KeptParts(was, shardOf, i, parts[i]);
        bytes := bytes - freed.value;
        LastFills(old(parts)[i], was[i], parts[i], victim, budget - weight - bytes);
      }
      return true;
    }

    /** Hold an entry its shard does not hold yet, once there is room for it. */
    method HoldNew(i: int, key: Key, value: V, weight: nat)
      requires Valid() && 0 <= i < |shards| && i == shardOf(key) && key !in parts[i] && weight <= budget
      requires |shards[i].slots| < NONE
      modifies this, shards[i]
      ensures Valid()
      ensures Inserted(old(Contents()), Contents(), shardOf, key, Entry(value, weight, false), budget)
      ensures NoMoreGivenUp(old(Contents()), Contents(), key, Entry(value, weight, false), budget)
    {
      ghost var was, e := parts, Entry(value, weight, false);
      var fits := MakeRoom(i, weight);
      ghost var part := parts[i];
      if !fits {
        InsertTurnedAway(was, shardOf, i, key, part, e, budget);
        return;
      }
      LandsInRoom(was, shardOf, i, key, part, e, budget);
      PutIn(i, key, value, weight);
      bytes := bytes + weight;
      assert parts == was[i := part[key := e]];
    }

    /** Adds an entry within the budget, evicting from its own shard only; a key already there is not replaced. */
    method Insert(key: Key, value: V, weight: nat)
      requires Valid() && forall i :: 0 <= i < |shards| ==> |shards[i].slots| < NONE
      modifies this, shards
      ensures Valid()
      ensures Inserted(old(Contents()), Contents(), shardOf, key, Entry(value, weight, false), budget)
      ensures NoMoreGivenUp(old(Contents()), Contents(), key, Entry(value, weight, false), budget)
    {
      if weight > budget {
        InsertIdle(Contents(), shardOf, key, Entry(value, weight, false), budget);
        return;
      }
      var i := shardOf(key);
      WholeAsks(parts, shardOf, key);
      Focus(i);
      var found := shards[i].Find(key);
      if found.Some? {
        InsertIdle(Contents(), shardOf, key, Entry(value, weight, false), budget);
        return;
      }
      HoldNew(i, key, value, weight);
    }

    /** Each shard in turn drops what it has of a segment. */
    method Forget(segment: int)
      requires Valid()
      modifies this, shards
      ensures Valid() && Contents() == Outside(old(Contents()), segment)
      ensures forall c: nat, b: nat {:trigger HoldKey(segment, c, b)} ::
        c < COLUMNS ==> HoldKey(segment, c, b) !in Contents()
      ensures forall t: int, c: nat, b: nat {:trigger HoldKey(t, c, b)} :: c < COLUMNS && t != segment ==>
        && (HoldKey(t, c, b) in Contents() <==> HoldKey(t, c, b) in old(Contents()))
        && (HoldKey(t, c, b) in Contents() ==> Contents()[HoldKey(t, c, b)] == old(Contents())[HoldKey(t, c, b)])
    {
      var i := 0;
      while i < |shards|
        invariant Valid() && 0 <= i <= |shards| && |parts| == old(|parts|)
        invariant forall j ::
          0 <= j < |parts| ==> parts[j] == if j < i then Outside(old(parts)[j], segment) else old(parts)[j]
      {
        ghost var was := parts;
        var freed := ForgetIn(i, segment);
        WeightsChange(was, i, parts[i]);
        KeptParts(was, shardOf, i, parts[i]);
        TotalWeightPositive(parts[i]);
        OutsideWeighs(was[i], segment);
        bytes := bytes - freed;
        i := i + 1;
      }
      WholeOutside(old(parts), parts, shardOf, segment);
      ForgottenExactly(old(Contents()), segment);
    }
  }

  /** Of all packed keys, just those of the segment are outside no more. */
  lemma ForgottenExactly<V>(m: map<Key, Entry<V>>, segment: int)
    ensures forall t: int, c: nat, b: nat {:trigger HoldKey(t, c, b)} :: c < COLUMNS ==>
      (HoldKey(t, c, b) in Outside(m, segment) <==> HoldKey(t, c, b) in m && t != segment)
  {
    forall t: int, c: nat, b: nat {:trigger HoldKey(t, c, b)} | c < COLUMNS
      ensures HoldKey(t, c, b) in Outside(m, segment) <==> HoldKey(t, c, b) in m && t != segment
    {
      SegmentUnpacks(t, c, b);
    }
  }

  /**
   What an insert leaves. An entry heavier than the budget, or of a held key, changes nothing. Any other
   either lands, beside entries held before, evicting none when there was room, or is turned away because
   it does not fit even with its shard empty. Other shards keep what they hold.
   */
  ghost predicate Inserted<V>(was: map<Key, Entry<V>>, now: map<Key, Entry<V>>, shardOf: Key -> int, key: Key,
                              e: Entry<V>, budget: nat)
  {
    var done :=
      && (e.weight > budget || key in was ==> now == was)
      && (forall k ::
        k in now && k != key ==> k in was && now[k].value == was[k].value && now[k].weight == was[k].weight)
      && (key !in was && e.weight <= budget ==> (key in now <==> !TurnedAway(now, shardOf, key, e, budget)))
      && (key in now && key !in was ==> now[key] == e)
      && (key !in was && TotalWeight(was) + e.weight <= budget ==> now == was[key := e])
      && (forall k :: shardOf(k) != shardOf(key) ==> (k in now <==> k in was) && (k in now ==> now[k] == was[k]));
    done
  }

  /** One of those given up weighs more than the room that is left: before the last one went there was too little. */
  ghost predicate OneFills<V>(was: map<Key, Entry<V>>, now: map<Key, Entry<V>>, room: int) {
    exists k :: k in was && k !in now && was[k].weight > room
  }

  lemma LastFills<V>(first: map<Key, Entry<V>>, was: map<Key, Entry<V>>, now: map<Key, Entry<V>>, victim: Key,
                     room: int)
    requires KeptFrom(was, first) && victim in was && victim !in now && was[victim].weight > room
    ensures OneFills(first, now, room)
  {
    assert victim in first;
  }

  /** The entry does not fit though its shard holds nothing. */
  ghost predicate TurnedAway<V>(now: map<Key, Entry<V>>, shardOf: Key -> int, key: Key, e: Entry<V>, budget: nat)
  {
    TotalWeight(now) + e.weight > budget && forall k :: k in now ==> shardOf(k) != shardOf(key)
  }

  lemma InsertIdle<V>(m: map<Key, Entry<V>>, shardOf: Key -> int, key: Key, e: Entry<V>, budget: nat)
    requires e.weight > budget || key in m
    ensures Inserted(m, m, shardOf, key, e, budget)
  {
    TotalWeightPositive(m);
  }

  lemma InsertTurnedAway<V>(parts: seq<map<Key, Entry<V>>>, shardOf: Key -> int, i: int, key: Key,
                            part: map<Key, Entry<V>>, e: Entry<V>, budget: nat)
    requires PartsOk(parts, shardOf) && 0 <= i < |parts| && i == shardOf(key) && key !in parts[i]
    requires part == map[] && Weights(parts[i := part]) + e.weight > budget >= e.weight
    requires Weights(parts) + e.weight > budget
    ensures Inserted(Whole(parts), Whole(parts[i := part]), shardOf, key, e, budget)
    ensures NoMoreGivenUp(Whole(parts), Whole(parts[i := part]), key, e, budget)
  {
    var now := parts[i := part];
    WholeChange(parts, shardOf, i, part);
    BytesOfWhole(now, shardOf);
    BytesOfWhole(parts, shardOf);
    WholeAsks(parts, shardOf, key);
    WholeAsks(now, shardOf, key);
    assert TurnedAway(Whole(now), shardOf, key, e, budget);
  }

  /** An entry that landed where there was no room for it cost no more than it took. */
  ghost predicate NoMoreGivenUp<V>(was: map<Key, Entry<V>>, now: map<Key, Entry<V>>, key: Key, e: Entry<V>,
                                   budget: nat)
  {
    key in now && key !in was && TotalWeight(was) + e.weight > budget ==> OneFills(was, now, budget - TotalWeight(now))
  }

  lemma FillsWhole<V>(parts: seq<map<Key, Entry<V>>>, now: seq<map<Key, Entry<V>>>, shardOf: Key -> int, i: int,
                      key: Key, part: map<Key, Entry<V>>, e: Entry<V>, budget: nat)
    requires PartsOk(parts, shardOf) && PartsOk(now, shardOf) && 0 <= i < |parts| && now == parts[i := part[key := e]]
    requires key !in parts[i]
    requires Weights(parts) + e.weight > budget ==> OneFills(parts[i], part, budget - Weights(now))
    ensures NoMoreGivenUp(Whole(parts), Whole(now), key, e, budget)
  {
    BytesOfWhole(parts, shardOf);
    BytesOfWhole(now, shardOf);
    if Weights(parts) + e.weight > budget {
      var k :| k in parts[i] && k !in part && parts[i][k].weight > budget - Weights(now);
      WholeAsks(parts, shardOf, k);
      WholeAsks(now, shardOf, k);
    }
  }

  lemma LandsInRoom<V>(parts: seq<map<Key, Entry<V>>>, shardOf: Key -> int, i: int, key: Key, part: map<Key, Entry<V>>,
                       e: Entry<V>, budget: nat)
    requires PartsOk(parts, shardOf) && 0 <= i < |parts| && i == shardOf(key) && key !in parts[i]
    requires KeptFrom(part, parts[i]) && Weights(parts[i := part]) + e.weight <= budget && e.weight <= budget
    requires Weights(parts) + e.weight <= budget ==> part == parts[i]
    requires Weights(parts) + e.weight > budget ==>
      OneFills(parts[i], part, budget - e.weight - Weights(parts[i := part]))
    ensures var now := parts[i := part[key := e]];
            && PartsOk(now, shardOf) && Weights(now) == Weights(parts[i := part]) + e.weight
            && Inserted(Whole(parts), Whole(now), shardOf, key, e, budget)
            && NoMoreGivenUp(Whole(parts), Whole(now), key, e, budget)
  {
    InsertLands(parts, shardOf, i, key, part, e, budget);
    FillsWhole(parts, parts[i := part[key := e]], shardOf, i, key, part, e, budget);
  }

  lemma InsertLands<V>(parts: seq<map<Key, Entry<V>>>, shardOf: Key -> int, i: int, key: Key, part: map<Key, Entry<V>>,
                       e: Entry<V>, budget: nat)
    requires PartsOk(parts, shardOf) && 0 <= i < |parts| && i == shardOf(key) && key !in parts[i]
    requires KeptFrom(part, parts[i]) && Weights(parts[i := part]) + e.weight <= budget && e.weight <= budget
    requires Weights(parts) + e.weight <= budget ==> part == parts[i]
    ensures var now := parts[i := part[key := e]];
            && PartsOk(now, shardOf) && Weights(now) == Weights(parts[i := part]) + e.weight
            && Inserted(Whole(parts), Whole(now), shardOf, key, e, budget)
  {
    var made, now := parts[i := part], parts[i := part[key := e]];
    WholeChange(parts, shardOf, i, part);
    WholePut(made, shardOf, key, e);
    WholeAsks(parts, shardOf, key);
    WholeAsks(made, shardOf, key);
    assert made[i := made[i][key := e]] == now;
    BytesOfWhole(parts, shardOf);
    WeightsChange(made, i, part[key := e]);
    TotalWeightWith(part, key, e);
    assert !TurnedAway(Whole(now), shardOf, key, e, budget) by {
      assert key in Whole(now);
    }
    if part == parts[i] {
      assert made == parts;
    }
    assert Whole(now) == Whole(made)[key := e];
  }

  /** A part that only lost entries is still asked for its own keys alone. */
  lemma KeptParts<V>(parts: seq<map<Key, Entry<V>>>, shardOf: Key -> int, i: int, part: map<Key, Entry<V>>)
    requires PartsOk(parts, shardOf) && 0 <= i < |parts| && forall k :: k in part ==> k in parts[i]
    ensures PartsOk(parts[i := part], shardOf)
  {}

  lemma WholeChange<V>(parts: seq<map<Key, Entry<V>>>, shardOf: Key -> int, i: int, part: map<Key, Entry<V>>)
    requires PartsOk(parts, shardOf) && 0 <= i < |parts| && KeptFrom(part, parts[i])
    ensures KeptFrom(Whole(parts[i := part]), Whole(parts)) && PartsOk(parts[i := part], shardOf)
    ensures forall k :: shardOf(k) != i ==>
              && (k in Whole(parts[i := part]) <==> k in Whole(parts))
              && (k in Whole(parts) ==> Whole(parts[i := part])[k] == Whole(parts)[k])
    ensures forall k :: shardOf(k) == i ==> (k in Whole(parts[i := part]) <==> k in part)
  {
    forall k ensures
        && (k in Whole(parts[i := part]) <==> k in parts[i := part][shardOf(k)])
        && (k in Whole(parts) <==> k in parts[shardOf(k)])
        && (k in Whole(parts[i := part]) ==> Whole(parts[i := part])[k] == parts[i := part][shardOf(k)][k])
        && (k in Whole(parts) ==> Whole(parts)[k] == parts[shardOf(k)][k])
    {
      WholeAsks(parts, shardOf, k);
      WholeAsks(parts[i := part], shardOf, k);
    }
  }

  /** What the shards' counts come to is the weight of everything held. */
  lemma BytesOfWhole<V>(parts: seq<map<Key, Entry<V>>>, shardOf: Key -> int)
    requires PartsOk(parts, shardOf)
    ensures Weights(parts) == TotalWeight(Whole(parts))
  {
    forall i, j, k | 0 <= i < j < |parts| && k in parts[i] ensures k !in parts[j] {
      assert shardOf(k) == i;
    }
    WeightsOfWhole(parts);
  }

  lemma OutsideWeighs<V>(m: map<Key, Entry<V>>, segment: int)
    ensures TotalWeight(Outside(m, segment)) <= TotalWeight(m)
  {
    var inside := map k | k in m && SegmentOf(k) == segment :: m[k];
    WeightOfUnion(Outside(m, segment), inside);
    assert Outside(m, segment) + inside == m;
    TotalWeightPositive(inside);
  }

  lemma WholeOutside<V>(was: seq<map<Key, Entry<V>>>, now: seq<map<Key, Entry<V>>>, shardOf: Key -> int, segment: int)
    requires PartsOk(was, shardOf) && PartsOk(now, shardOf) && |was| == |now| > 0
    requires forall i :: 0 <= i < |was| ==> now[i] == Outside(was[i], segment)
    ensures Whole(now) == Outside(Whole(was), segment)
  {
    forall k
      ensures k in Whole(now) <==> k in Outside(Whole(was), segment)
      ensures k in Whole(now) ==> Whole(now)[k] == Whole(was)[k]
    {
      WholeAsks(was, shardOf, k);
      WholeAsks(now, shardOf, k);
    }
  }

  /** The map with one key's entry marked read. */
  ghost function Marked<V>(m: map<Key, Entry<V>>, key: Key): map<Key, Entry<V>>
    requires key in m
  {
    m[key := m[key].(hot := true)]
  }

  /** Entries that stand in both maps under the same value and weight, whatever their read marks. */
  ghost predicate KeptFrom<V>(now: map<Key, Entry<V>>, was: map<Key, Entry<V>>) {
    forall k :: k in now ==> k in was && now[k].value == was[k].value && now[k].weight == was[k].weight
  }

  /** An eviction leaves every other entry, but for its read mark, and takes exactly the victim's weight. */
  lemma EvictKeeps<V>(held: map<Key, Entry<V>>, swept: map<Key, Entry<V>>, slotOf: map<Key, int>, h: int, n: int,
                      victim: Key)
    requires Victim(held, swept, slotOf, h, n, victim)
    ensures KeptFrom(swept - {victim}, held) && |swept - {victim}| == |held| - 1
    ensures TotalWeight(swept - {victim}) == TotalWeight(held) - held[victim].weight
  {
    assert swept.Keys == held.Keys;
    SameWeights(held, swept);
    TotalWeightWithout(swept, victim);
    assert (swept - {victim}).Keys == held.Keys - {victim};
    assert |swept - {victim}| == |(swept - {victim}).Keys| && |held| == |held.Keys|;
  }

  lemma {:induction false} SameWeights<V>(a: map<Key, Entry<V>>, b: map<Key, Entry<V>>)
    requires a.Keys == b.Keys && forall k :: k in a ==> a[k].weight == b[k].weight
    ensures TotalWeight(a) == TotalWeight(b)
    decreases |a|
  {
    if k :| k in a {
      TotalWeightWithout(a, k);
      TotalWeightWithout(b, k);
      SameWeights(a - {k}, b - {k});
    }
  }

  lemma MarkWeighs<V>(m: map<Key, Entry<V>>, key: Key)
    requires key in m
    ensures TotalWeight(Marked(m, key)) == TotalWeight(m)
  {
    SameWeights(m, Marked(m, key));
  }

  lemma {:induction false} EmptyParts<V>(parts: seq<map<Key, Entry<V>>>)
    requires forall i :: 0 <= i < |parts| ==> parts[i] == map[]
    ensures Whole(parts) == map[] && Weights(parts) == 0
  {
    if parts != [] {
      EmptyParts(parts[..|parts| - 1]);
    }
  }
}
