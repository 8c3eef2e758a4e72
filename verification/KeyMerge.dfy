/**
 Merging sorted runs into one key run. Every source is walked by a cursor, the cursors are kept in a heap,
 and of all rows of a key the newest one in a standing segment is written, in key order.
 */
module KeyMerge {
  import opened ByteStrings
  import opened Common
  import opened KeyOrder
  import opened MergeHeap

  /** A heap of exactly the cursors that still stand on a row. */
  ghost predicate HoldsLive(s: Sources, pos: seq<int>, heap: seq<int>)
    requires PlacesOk(s, pos)
  {
    && AllLive(s, pos, heap) && (forall i {:trigger multiset(heap)[i]} :: multiset(heap)[i] <= 1)
    && (forall i {:trigger i in heap} :: Live(s, pos, i) ==> i in heap)
  }

  lemma OncePerPlace(heap: seq<int>, i: nat, j: nat)
    requires i < j < |heap| && multiset(heap)[heap[i]] <= 1
    ensures heap[i] != heap[j]
  {
    assert heap == heap[..j] + [heap[j]] + heap[j + 1..];
    assert heap[i] in heap[..j];
  }

  /** Take out the top: the last cursor takes its place. */
  function WithoutTop(heap: seq<int>): (r: seq<int>)
    requires heap != []
    ensures |r| == |heap| - 1 && multiset(r) == multiset(heap) - multiset{heap[0]}
  {
    var last := |heap| - 1;
    assert heap == heap[..last] + [heap[last]];
    if last == 0 then [] else
      assert heap[..last] == [heap[0]] + heap[1..last];
      assert heap[..last][0 := heap[last]] == [heap[last]] + heap[1..last];
      heap[..last][0 := heap[last]]
  }

  /** Cursors other than the one that moves still stand where they stood. */
  lemma MovedHeaped(s: Sources, pos: seq<int>, heap: seq<int>, after: seq<int>)
    requires PlacesOk(s, pos) && heap != [] && HoldsLive(s, pos, heap) && Heaped(s, pos, heap, 0)
    requires after == pos[heap[0] := pos[heap[0]] + 1] && PlacesOk(s, after)
    ensures var next := if Live(s, after, heap[0]) then heap else WithoutTop(heap);
            AllLive(s, after, next) && Heaped(s, after, next, 1)
  {
    var top, next := heap[0], if Live(s, after, heap[0]) then heap else WithoutTop(heap);
    forall j | 0 < j < |heap| ensures heap[j] != top && after[heap[j]] == pos[heap[j]] { OncePerPlace(heap, 0, j); }
    forall c | 0 < c < |next| && 1 <= Parent(c) ensures !IsBefore(s, after, next[c], next[Parent(c)]) {
      assert next[c] == heap[c] && next[Parent(c)] == heap[Parent(c)];
    }
  }

  lemma MovedHolds(s: Sources, pos: seq<int>, heap: seq<int>, after: seq<int>, next: seq<int>)
    requires PlacesOk(s, pos) && heap != [] && HoldsLive(s, pos, heap)
    requires after == pos[heap[0] := pos[heap[0]] + 1] && PlacesOk(s, after) && AllLive(s, after, next)
    requires multiset(next) == multiset(if Live(s, after, heap[0]) then heap else WithoutTop(heap))
    ensures HoldsLive(s, after, next)
  {
    forall i | Live(s, after, i) ensures i in next {
      assert Live(s, pos, i) && i in heap;
      assert i in multiset(heap);
      assert i in multiset(next);
    }
  }

  /** The top cursor goes on, or out once it is spent, and the heap is put in order again. */
  method AdvanceTop(s: Sources, pos: seq<int>, heap: seq<int>) returns (after: seq<int>, next: seq<int>)
    requires PlacesOk(s, pos) && heap != [] && HoldsLive(s, pos, heap) && Heaped(s, pos, heap, 0)
    ensures after == pos[heap[0] := pos[heap[0]] + 1] && PlacesOk(s, after)
    ensures HoldsLive(s, after, next) && Heaped(s, after, next, 0)
  {
    var top := heap[0];
    after := pos[top := pos[top] + 1];
    MovedHeaped(s, pos, heap, after);
    next := heap;
    if !Live(s, after, top) {
      next := WithoutTop(heap);
    }
    next := SiftDown(s, after, next, 0);
    MovedHolds(s, pos, heap, after, next);
  }

  // ---- what is left ----

  /** A row some cursor has not passed. */
  predicate IsLeft(s: Sources, pos: seq<int>, i: int, r: int)
    requires PlacesOk(s, pos)
  {
    0 <= i < |s| && pos[i] <= r < |s[i]|
  }

  /** A row some cursor has passed. */
  predicate IsTaken(s: Sources, pos: seq<int>, i: int, r: int)
    requires PlacesOk(s, pos)
  {
    0 <= i < |s| && 0 <= r < pos[i]
  }

  /** No row that is left stands before the top cursor's key. */
  lemma TopBounds(s: Sources, pos: seq<int>, heap: seq<int>, i: int, r: int)
    requires SourcesOk(s) && PlacesOk(s, pos) && heap != [] && HoldsLive(s, pos, heap) && Heaped(s, pos, heap, 0)
    requires IsLeft(s, pos, i, r)
    ensures !Before(s[i][r].key, KeyOf(s, pos, heap[0]))
  {
    assert Live(s, pos, i) && i in heap;
    var c :| 0 <= c < |heap| && heap[c] == i;
    TopIsLeast(s, pos, heap, c);
    NotBefore(s[i][pos[i]].key);
    assert !Before(s[i][r].key, s[i][pos[i]].key);
    BeforeTrans(KeyOf(s, pos, heap[0]), s[i][pos[i]].key, s[i][r].key);
  }

  lemma NotBefore(k: Bytes)
    ensures !Before(k, k)
  {
    EqualIsSame(k, k);
  }

  function LeftIn(s: Sources, pos: seq<int>, n: nat): nat
    requires PlacesOk(s, pos) && n <= |s|
  {
    if n == 0 then 0 else LeftIn(s, pos, n - 1) + |s[n - 1]| - pos[n - 1]
  }

  lemma {:induction false} LeftDrops(s: Sources, pos: seq<int>, after: seq<int>, t: nat, n: nat)
    requires PlacesOk(s, pos) && PlacesOk(s, after) && t < |s| && after == pos[t := pos[t] + 1] && n <= |s|
    ensures LeftIn(s, after, n) == LeftIn(s, pos, n) - (if t < n then 1 else 0)
  {
    if n > 0 { LeftDrops(s, pos, after, t, n - 1); }
  }

  // ---- one key's rows ----

  /** The rows between two stands of the cursors, all of one key, and the newest standing one among them. */
  ghost predicate Gathered(s: Sources, standing: set<int>, pos0: seq<int>, pos: seq<int>, key: Bytes,
                           newest: Option<MergeRow>)
    requires PlacesOk(s, pos0) && PlacesOk(s, pos)
  {
    && (forall i {:trigger pos[i]} :: 0 <= i < |s| ==> pos0[i] <= pos[i])
    && (forall i, r {:trigger s[i][r]} :: IsLeft(s, pos0, i, r) && IsTaken(s, pos, i, r) ==>
          s[i][r].key == key && (s[i][r].segment in standing ==> newest.Some? && s[i][r].lsn <= newest.value.lsn))
    && (newest.Some? ==>
          && newest.value.segment in standing
          && exists i, r :: IsLeft(s, pos0, i, r) && IsTaken(s, pos, i, r) && s[i][r] == newest.value)
  }

  /** Taking one more row of the key. */
  lemma GatherOne(s: Sources, standing: set<int>, pos0: seq<int>, pos: seq<int>, after: seq<int>, key: Bytes,
                  newest: Option<MergeRow>, t: nat, newer: Option<MergeRow>)
    requires PlacesOk(s, pos0) && PlacesOk(s, pos) && PlacesOk(s, after)
    requires Gathered(s, standing, pos0, pos, key, newest)
    requires t < |s| && pos[t] < |s[t]| && after == pos[t := pos[t] + 1] && s[t][pos[t]].key == key
    requires newer == if s[t][pos[t]].segment in standing && (newest.None? || newest.value.lsn < s[t][pos[t]].lsn)
                      then Some(s[t][pos[t]]) else newest
    ensures Gathered(s, standing, pos0, after, key, newer)
  {
    forall i, r | IsLeft(s, pos0, i, r) && IsTaken(s, after, i, r)
      ensures s[i][r].key == key && (s[i][r].segment in standing ==> newer.Some? && s[i][r].lsn <= newer.value.lsn)
    {
      assert IsTaken(s, pos, i, r) || (i == t && r == pos[t]);
    }
    if newer.Some? {
      if newer == newest {
        var i, r :| IsLeft(s, pos0, i, r) && IsTaken(s, pos, i, r) && s[i][r] == newest.value;
        assert IsTaken(s, after, i, r);
      } else {
        assert IsLeft(s, pos0, t, pos[t]) && IsTaken(s, after, t, pos[t]);
      }
    }
  }

  /** Take every row of the top cursor's key, keeping the newest standing one. */
  method GatherKey(s: Sources, standing: set<int>, pos0: seq<int>, heap0: seq<int>, key: Bytes)
    returns (pos: seq<int>, heap: seq<int>, newest: Option<MergeRow>)
    requires SourcesOk(s) && PlacesOk(s, pos0) && HoldsLive(s, pos0, heap0) && Heaped(s, pos0, heap0, 0)
    requires heap0 != [] && key == KeyOf(s, pos0, heap0[0])
    ensures PlacesOk(s, pos) && HoldsLive(s, pos, heap) && Heaped(s, pos, heap, 0)
    ensures Gathered(s, standing, pos0, pos, key, newest)
    ensures LeftIn(s, pos, |s|) < LeftIn(s, pos0, |s|)
    ensures heap != [] ==> KeyOf(s, pos, heap[0]) != key
  {
    pos, heap, newest := pos0, heap0, None;
    while heap != [] && KeyOf(s, pos, heap[0]) == key
      invariant PlacesOk(s, pos) && HoldsLive(s, pos, heap) && Heaped(s, pos, heap, 0)
      invariant Gathered(s, standing, pos0, pos, key, newest)
      invariant (pos == pos0 && heap == heap0) || LeftIn(s, pos, |s|) < LeftIn(s, pos0, |s|)
      decreases LeftIn(s, pos, |s|)
    {
      var top := heap[0];
      var row, before := s[top][pos[top]], pos;
      var newer := if row.segment in standing && (newest.None? || newest.value.lsn < row.lsn) then Some(row)
        else newest;
      pos, heap := AdvanceTop(s, pos, heap);
      GatherOne(s, standing, pos0, before, pos, key, newest, top, newer);
      LeftDrops(s, before, pos, top, |s|);
      newest := newer;
    }
  }

  // ---- the merge ----

  /** A taken standing row that no taken standing row of its key is newer than. */
  ghost predicate Best(s: Sources, standing: set<int>, pos: seq<int>, o: MergeRow)
    requires PlacesOk(s, pos)
  {
    && o.segment in standing && (exists i, r :: IsTaken(s, pos, i, r) && s[i][r] == o)
    && forall i, r {:trigger s[i][r]} ::
      IsTaken(s, pos, i, r) && s[i][r].segment in standing && s[i][r].key == o.key ==> s[i][r].lsn <= o.lsn
  }

  predicate HasKey(out: seq<MergeRow>, key: Bytes) { exists o :: 0 <= o < |out| && out[o].key == key }

  predicate Ascends(out: seq<MergeRow>) {
    forall a, b {:trigger out[a], out[b]} :: 0 <= a < b < |out| ==> Before(out[a].key, out[b].key)
  }

  ghost predicate AllBest(s: Sources, standing: set<int>, pos: seq<int>, out: seq<MergeRow>)
    requires PlacesOk(s, pos)
  {
    forall o {:trigger out[o]} :: 0 <= o < |out| ==> Best(s, standing, pos, out[o])
  }

  ghost predicate AllKeys(s: Sources, standing: set<int>, pos: seq<int>, out: seq<MergeRow>)
    requires PlacesOk(s, pos)
  {
    forall i, r {:trigger s[i][r]} :: IsTaken(s, pos, i, r) && s[i][r].segment in standing ==> HasKey(out, s[i][r].key)
  }

  /** What has been written is what the rows taken so far come to. */
  ghost predicate Merged(s: Sources, standing: set<int>, pos: seq<int>, out: seq<MergeRow>)
    requires PlacesOk(s, pos)
  {
    Ascends(out) && AllBest(s, standing, pos, out) && AllKeys(s, standing, pos, out)
  }

  /** Every row taken is of a lesser key. */
  ghost predicate AllBefore(s: Sources, pos: seq<int>, key: Bytes)
    requires PlacesOk(s, pos)
  {
    forall i, r {:trigger s[i][r]} :: IsTaken(s, pos, i, r) ==> Before(s[i][r].key, key)
  }

  ghost predicate Parted(s: Sources, pos: seq<int>)
    requires PlacesOk(s, pos)
  {
    forall i, r, j, q {:trigger s[i][r], s[j][q]} ::
      IsTaken(s, pos, i, r) && IsLeft(s, pos, j, q) ==> Before(s[i][r].key, s[j][q].key)
  }

  /** Once all rows of the key are taken, those left are past it. */
  lemma GatheredParts(s: Sources, standing: set<int>, pos0: seq<int>, heap0: seq<int>, pos: seq<int>, heap: seq<int>,
                      key: Bytes, newest: Option<MergeRow>)
    requires SourcesOk(s) && PlacesOk(s, pos0) && HoldsLive(s, pos0, heap0) && Heaped(s, pos0, heap0, 0) && heap0 != []
    requires key == KeyOf(s, pos0, heap0[0]) && Parted(s, pos0)
    requires PlacesOk(s, pos) && HoldsLive(s, pos, heap) && Heaped(s, pos, heap, 0)
    requires Gathered(s, standing, pos0, pos, key, newest)
    requires heap != [] ==> KeyOf(s, pos, heap[0]) != key
    ensures Parted(s, pos)
    ensures AllBefore(s, pos0, key)
  {
    forall i, r | IsTaken(s, pos0, i, r) ensures Before(s[i][r].key, key) {
      assert IsLeft(s, pos0, heap0[0], pos0[heap0[0]]);
      assert s[heap0[0]][pos0[heap0[0]]].key == key;
    }
    forall j, q | IsLeft(s, pos, j, q) ensures Before(key, s[j][q].key) {
      LeftPast(s, pos0, heap0, pos, heap, key, j, q);
    }
    forall i, r, j, q | IsTaken(s, pos, i, r) && IsLeft(s, pos, j, q) ensures Before(s[i][r].key, s[j][q].key) {
      assert IsTaken(s, pos0, i, r) || s[i][r].key == key;
      assert IsLeft(s, pos0, j, q);
    }
  }

  lemma LeftPast(s: Sources, pos0: seq<int>, heap0: seq<int>, pos: seq<int>, heap: seq<int>, key: Bytes, j: int, q: int)
    requires SourcesOk(s) && PlacesOk(s, pos0) && HoldsLive(s, pos0, heap0) && Heaped(s, pos0, heap0, 0) && heap0 != []
    requires key == KeyOf(s, pos0, heap0[0]) && PlacesOk(s, pos) && HoldsLive(s, pos, heap) && Heaped(s, pos, heap, 0)
    requires (forall i {:trigger pos[i]} :: 0 <= i < |s| ==> pos0[i] <= pos[i])
    requires (heap != [] ==> KeyOf(s, pos, heap[0]) != key)
    requires IsLeft(s, pos, j, q)
    ensures Before(key, s[j][q].key)
  {
    assert Live(s, pos, j) && j in heap;
    var top := heap[0];
    TopBounds(s, pos, heap, j, q);
    assert pos0[top] <= pos[top] && IsLeft(s, pos0, top, pos[top]);
    TopBounds(s, pos0, heap0, top, pos[top]);
    EqualIsSame(key, KeyOf(s, pos, top));
    Mirrored(key, KeyOf(s, pos, top));
    BeforeTrans(key, KeyOf(s, pos, top), s[j][q].key);
  }

  /** Every key written so far is before this one and keeps its newest row. */
  lemma OutStays(s: Sources, standing: set<int>, pos0: seq<int>, pos: seq<int>, key: Bytes, newest: Option<MergeRow>,
                 out: seq<MergeRow>)
    requires PlacesOk(s, pos0) && PlacesOk(s, pos) && Gathered(s, standing, pos0, pos, key, newest)
    requires AllBest(s, standing, pos0, out)
    requires AllBefore(s, pos0, key)
    ensures AllBest(s, standing, pos, out) && forall o {:trigger out[o]} :: 0 <= o < |out| ==> Before(out[o].key, key)
  {
    forall o | 0 <= o < |out| ensures Before(out[o].key, key) && Best(s, standing, pos, out[o]) {
      BestStays(s, standing, pos0, pos, key, newest, out[o]);
    }
  }

  /** Writing the newest standing row of a key, or nothing where it has none. */
  lemma MergedOne(s: Sources, standing: set<int>, pos0: seq<int>, pos: seq<int>, key: Bytes, newest: Option<MergeRow>,
                  out: seq<MergeRow>)
    requires PlacesOk(s, pos0) && PlacesOk(s, pos) && Gathered(s, standing, pos0, pos, key, newest)
    requires Merged(s, standing, pos0, out)
    requires AllBefore(s, pos0, key)
    ensures Merged(s, standing, pos, if newest.Some? then out + [newest.value] else out)
  {
    OutStays(s, standing, pos0, pos, key, newest, out);
    if newest.Some? {
      NewestBest(s, standing, pos0, pos, key, newest);
      KeysKept(s, standing, pos0, pos, key, newest, out, out + [newest.value]);
      AppendBest(s, standing, pos, out, newest.value);
    } else {
      KeysKept(s, standing, pos0, pos, key, newest, out, out);
    }
  }

  lemma AppendBest(s: Sources, standing: set<int>, pos: seq<int>, out: seq<MergeRow>, o: MergeRow)
    requires PlacesOk(s, pos) && AllBest(s, standing, pos, out) && Best(s, standing, pos, o) && Ascends(out)
    requires forall a {:trigger out[a]} :: 0 <= a < |out| ==> Before(out[a].key, o.key)
    ensures AllBest(s, standing, pos, out + [o]) && Ascends(out + [o])
  {}

  lemma KeysKept(s: Sources, standing: set<int>, pos0: seq<int>, pos: seq<int>, key: Bytes, newest: Option<MergeRow>,
                 out: seq<MergeRow>, more: seq<MergeRow>)
    requires PlacesOk(s, pos0) && PlacesOk(s, pos) && Gathered(s, standing, pos0, pos, key, newest)
    requires more == (if newest.Some? then out + [newest.value] else out) && (newest.Some? ==> newest.value.key == key)
    requires AllKeys(s, standing, pos0, out)
    ensures AllKeys(s, standing, pos, more)
  {
    forall i, r | IsTaken(s, pos, i, r) && s[i][r].segment in standing ensures HasKey(more, s[i][r].key) {
      if IsTaken(s, pos0, i, r) {
        var o :| 0 <= o < |out| && out[o].key == s[i][r].key;
        assert more[o].key == s[i][r].key;
      } else {
        assert IsLeft(s, pos0, i, r);
        assert more[|out|].key == key;
      }
    }
  }

  lemma BestStays(s: Sources, standing: set<int>, pos0: seq<int>, pos: seq<int>, key: Bytes, newest: Option<MergeRow>,
                  o: MergeRow)
    requires PlacesOk(s, pos0) && PlacesOk(s, pos) && Gathered(s, standing, pos0, pos, key, newest)
    requires Best(s, standing, pos0, o)
    requires AllBefore(s, pos0, key)
    ensures Before(o.key, key) && Best(s, standing, pos, o)
  {
    NotBefore(key);
    var i, r :| IsTaken(s, pos0, i, r) && s[i][r] == o;
    assert pos0[i] <= pos[i] && IsTaken(s, pos, i, r);
    forall i, r | IsTaken(s, pos, i, r) && s[i][r].segment in standing && s[i][r].key == o.key
      ensures s[i][r].lsn <= o.lsn
    {
      assert IsTaken(s, pos0, i, r) || IsLeft(s, pos0, i, r);
    }
  }

  lemma NewestBest(s: Sources, standing: set<int>, pos0: seq<int>, pos: seq<int>, key: Bytes, newest: Option<MergeRow>)
    requires PlacesOk(s, pos0) && PlacesOk(s, pos) && newest.Some? && Gathered(s, standing, pos0, pos, key, newest)
    requires AllBefore(s, pos0, key)
    ensures newest.value.key == key && Best(s, standing, pos, newest.value)
  {
    NotBefore(key);
    var i, r :| IsLeft(s, pos0, i, r) && IsTaken(s, pos, i, r) && s[i][r] == newest.value;
    forall i, r | IsTaken(s, pos, i, r) && s[i][r].segment in standing && s[i][r].key == key
      ensures s[i][r].lsn <= newest.value.lsn
    {
      assert IsTaken(s, pos0, i, r) || IsLeft(s, pos0, i, r);
    }
  }

  /** Cursors at the front of every source that has a row. */
  method Start(s: Sources) returns (pos: seq<int>, heap: seq<int>)
    ensures PlacesOk(s, pos) && HoldsLive(s, pos, heap) && Heaped(s, pos, heap, 0)
    ensures forall i :: 0 <= i < |s| ==> pos[i] == 0
  {
    pos := seq(|s|, i => 0);
    heap := [];
    for i := 0 to |s|
      invariant AllLive(s, pos, heap) && (forall j {:trigger multiset(heap)[j]} :: multiset(heap)[j] <= 1)
      invariant forall j {:trigger j in heap} :: j in heap <==> 0 <= j < i && Live(s, pos, j)
    {
      if pos[i] < |s[i]| {
        ghost var fewer := heap;
        heap := heap + [i];
        assert i !in fewer;
        assert multiset(heap) == multiset(fewer) + multiset{i};
        assert forall j :: j in heap <==> j in fewer || j == i;
      }
    }
    ghost var listed := heap;
    heap := Heapify(s, pos, heap);
    forall i | Live(s, pos, i) ensures i in heap {
      assert i in listed;
      assert i in multiset(listed) && i in multiset(heap);
    }
  }

  /**
   The merge of a column: keys strictly ascending, each with the newest row any source has of it in a standing
   segment, and exactly the keys that have one. A row in a segment the run does not cover fails.
   */
  method MergeColumn(s: Sources, standing: set<int>, covered: set<int>) returns (r: Option<seq<MergeRow>>)
    requires SourcesOk(s)
    ensures r.Some? ==> Merged(s, standing, Ends(s), r.value)
    ensures r.Some? ==> forall o {:trigger r.value[o]} :: 0 <= o < |r.value| ==> r.value[o].segment in covered
    ensures r.None? ==> exists o :: Best(s, standing, Ends(s), o) && o.segment !in covered
    ensures AllCovered(s, standing, covered) ==> r.Some?
  {
    var pos, heap := Start(s);
    var out: seq<MergeRow> := [];
    while heap != []
      invariant PlacesOk(s, pos) && Going(s, standing, pos, heap, out)
      invariant forall o {:trigger out[o]} :: 0 <= o < |out| ==> out[o].segment in covered
      decreases LeftIn(s, pos, |s|)
    {
      var newest;
      pos, heap, newest := MergeKey(s, standing, pos, heap, out);
      if newest.Some? {
        if newest.value.segment !in covered {
          LastBest(s, standing, pos, heap, out + [newest.value], |out|);
          return None;
        }
        out := out + [newest.value];
      }
    }
    AllSpent(s, pos, heap);
    return Some(out);
  }

  /** The run covers every standing segment a source has a row in. */
  ghost predicate AllCovered(s: Sources, standing: set<int>, covered: set<int>) {
    forall i, q {:trigger s[i][q]} ::
      0 <= i < |s| && 0 <= q < |s[i]| && s[i][q].segment in standing ==> s[i][q].segment in covered
  }

  /** A row written is its key's newest of all sources, for the rows left are of later keys. */
  lemma LastBest(s: Sources, standing: set<int>, pos: seq<int>, heap: seq<int>, out: seq<MergeRow>, o: nat)
    requires PlacesOk(s, pos) && Going(s, standing, pos, heap, out) && o < |out|
    ensures Best(s, standing, Ends(s), out[o])
  {
    var b, e := out[o], Ends(s);
    assert Best(s, standing, pos, b);
    NotBefore(b.key);
    var i, r :| IsTaken(s, pos, i, r) && s[i][r] == b;
    assert IsTaken(s, e, i, r);
    forall j, q {:trigger s[j][q]} | IsTaken(s, e, j, q) && s[j][q].segment in standing && s[j][q].key == b.key
      ensures s[j][q].lsn <= b.lsn
    {
      assert !IsLeft(s, pos, j, q);
    }
  }

  /** A merge between two keys. */
  ghost predicate Going(s: Sources, standing: set<int>, pos: seq<int>, heap: seq<int>, out: seq<MergeRow>)
    requires PlacesOk(s, pos)
  {
    var ok := HoldsLive(s, pos, heap) && Heaped(s, pos, heap, 0) && Parted(s, pos) && Merged(s, standing, pos, out);
    ok
  }

  method MergeKey(s: Sources, standing: set<int>, pos0: seq<int>, heap0: seq<int>, ghost out: seq<MergeRow>)
    returns (pos: seq<int>, heap: seq<int>, newest: Option<MergeRow>)
    requires SourcesOk(s) && PlacesOk(s, pos0) && Going(s, standing, pos0, heap0, out) && heap0 != []
    ensures PlacesOk(s, pos) && LeftIn(s, pos, |s|) < LeftIn(s, pos0, |s|)
    ensures (newest.Some? ==> newest.value.segment in standing)
    ensures Going(s, standing, pos, heap, if newest.Some? then out + [newest.value] else out)
  {
    var key := KeyOf(s, pos0, heap0[0]);
    pos, heap, newest := GatherKey(s, standing, pos0, heap0, key);
    GatheredParts(s, standing, pos0, heap0, pos, heap, key, newest);
    MergedOne(s, standing, pos0, pos, key, newest, out);
  }

  function Ends(s: Sources): (e: seq<int>)
    ensures PlacesOk(s, e) && forall i {:trigger e[i]} :: 0 <= i < |s| ==> e[i] == |s[i]|
  {
    seq(|s|, i requires 0 <= i < |s| => |s[i]|)
  }

  lemma AllSpent(s: Sources, pos: seq<int>, heap: seq<int>)
    requires PlacesOk(s, pos) && HoldsLive(s, pos, heap) && heap == []
    ensures pos == Ends(s)
  {
    forall i | 0 <= i < |s| ensures pos[i] == |s[i]| { assert Live(s, pos, i) ==> i in heap; }
  }
}
