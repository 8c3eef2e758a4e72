/**
 The heap a merge keeps its cursors in: the one on the least key on top, ties to the earlier cursor. Sinking
 a cursor whose key grew, and taking out one that is spent, keep the order.
 */
module MergeHeap {
  import opened ByteStrings
  import opened KeyOrder

  /** What a source lists: a key, and which record of which segment it stands for. */
  datatype MergeRow = MergeRow(key: Bytes, lsn: int, segment: int, place: int)

  type Sources = seq<seq<MergeRow>>

  /** Every source's rows are in key order. */
  predicate SourcesOk(s: Sources) {
    forall i, a, b {:trigger s[i][a], s[i][b]} ::
      0 <= i < |s| && 0 <= a < b < |s[i]| ==> !Before(s[i][b].key, s[i][a].key)
  }

  /** Where each cursor stands; one past its rows is spent. */
  predicate PlacesOk(s: Sources, pos: seq<int>) {
    |pos| == |s| && forall i {:trigger pos[i]} :: 0 <= i < |s| ==> 0 <= pos[i] <= |s[i]|
  }

  predicate Live(s: Sources, pos: seq<int>, i: int)
    requires PlacesOk(s, pos)
  {
    0 <= i < |s| && pos[i] < |s[i]|
  }

  function KeyOf(s: Sources, pos: seq<int>, i: int): Bytes
    requires PlacesOk(s, pos) && Live(s, pos, i)
  {
    s[i][pos[i]].key
  }

  /** The heap's order on live cursors: by current key, and by number where two have the same. */
  predicate IsBefore(s: Sources, pos: seq<int>, a: int, b: int)
    requires PlacesOk(s, pos) && Live(s, pos, a) && Live(s, pos, b)
  {
    Before(KeyOf(s, pos, a), KeyOf(s, pos, b)) || (KeyOf(s, pos, a) == KeyOf(s, pos, b) && a < b)
  }

  lemma BeforeChain(s: Sources, pos: seq<int>, a: int, b: int, c: int)
    requires PlacesOk(s, pos) && Live(s, pos, a) && Live(s, pos, b) && Live(s, pos, c)
    requires !IsBefore(s, pos, b, a) && !IsBefore(s, pos, c, b)
    ensures !IsBefore(s, pos, c, a)
  {
    var ka, kb, kc := KeyOf(s, pos, a), KeyOf(s, pos, b), KeyOf(s, pos, c);
    BeforeTrans(ka, kb, kc);
    EqualIsSame(ka, kb);
    EqualIsSame(kb, kc);
    EqualIsSame(ka, kc);
    Mirrored(ka, kb);
    Mirrored(kb, kc);
    Mirrored(ka, kc);
  }

  lemma BeforeTotal(s: Sources, pos: seq<int>, a: int, b: int)
    requires PlacesOk(s, pos) && Live(s, pos, a) && Live(s, pos, b) && IsBefore(s, pos, a, b)
    ensures !IsBefore(s, pos, b, a)
  {
    var ka, kb := KeyOf(s, pos, a), KeyOf(s, pos, b);
    EqualIsSame(ka, kb);
    Mirrored(ka, kb);
  }

  predicate AllLive(s: Sources, pos: seq<int>, heap: seq<int>)
    requires PlacesOk(s, pos)
  {
    forall j {:trigger heap[j]} :: 0 <= j < |heap| ==> Live(s, pos, heap[j])
  }

  function Parent(c: int): int { (c - 1) / 2 }

  /** No cursor stands before the one above it, for those above from `from` on. */
  predicate Heaped(s: Sources, pos: seq<int>, heap: seq<int>, from: int)
    requires PlacesOk(s, pos) && AllLive(s, pos, heap)
  {
    forall c {:trigger Parent(c)} :: 0 < c < |heap| && from <= Parent(c) ==> !IsBefore(s, pos, heap[c], heap[Parent(c)])
  }

  /** The same but for the cursors right below one place. */
  predicate HeapedBut(s: Sources, pos: seq<int>, heap: seq<int>, from: int, at: int)
    requires PlacesOk(s, pos) && AllLive(s, pos, heap)
  {
    forall c {:trigger Parent(c)} ::
      0 < c < |heap| && from <= Parent(c) && Parent(c) != at ==> !IsBefore(s, pos, heap[c], heap[Parent(c)])
  }

  /** Those below a place are not before the one above it. */
  predicate Bridged(s: Sources, pos: seq<int>, heap: seq<int>, from: int, at: int)
    requires PlacesOk(s, pos) && AllLive(s, pos, heap)
  {
    0 < at && from <= Parent(at) ==>
      forall c {:trigger Parent(c)} ::
        0 < c < |heap| && Parent(c) == at && Parent(at) < |heap| ==> !IsBefore(s, pos, heap[c], heap[Parent(at)])
  }

  predicate SameElements(a: seq<int>, b: seq<int>) { |a| == |b| && multiset(a) == multiset(b) }

  function Swapped(heap: seq<int>, i: int, j: int): (r: seq<int>)
    requires 0 <= i < |heap| && 0 <= j < |heap|
    ensures |r| == |heap| && r[i] == heap[j] && r[j] == heap[i]
    ensures forall k {:trigger r[k]} :: 0 <= k < |heap| && k != i && k != j ==> r[k] == heap[k]
    ensures multiset(r) == multiset(heap)
  {
    heap[i := heap[j]][j := heap[i]]
  }

  /** The one of two below a place that stands before the other. */
  predicate IsLeastChild(s: Sources, pos: seq<int>, heap: seq<int>, at: int, child: int)
    requires PlacesOk(s, pos) && AllLive(s, pos, heap)
  {
    && 0 <= at < child < |heap| && Parent(child) == at
    && forall c {:trigger Parent(c)} :: 0 < c < |heap| && Parent(c) == at ==> !IsBefore(s, pos, heap[c], heap[child])
  }

  /** Sinking one level leaves the order broken only below where the cursor now stands. */
  lemma SinkKeeps(s: Sources, pos: seq<int>, heap: seq<int>, from: int, at: int, child: int)
    requires PlacesOk(s, pos) && AllLive(s, pos, heap) && 0 <= from <= at && IsLeastChild(s, pos, heap, at, child)
    requires HeapedBut(s, pos, heap, from, at) && Bridged(s, pos, heap, from, at)
    requires IsBefore(s, pos, heap[child], heap[at])
    ensures AllLive(s, pos, Swapped(heap, at, child))
    ensures HeapedBut(s, pos, Swapped(heap, at, child), from, child)
    ensures Bridged(s, pos, Swapped(heap, at, child), from, child)
  {
    var w := Swapped(heap, at, child);
    forall j | 0 <= j < |w| ensures Live(s, pos, w[j]) { assert j != at && j != child ==> w[j] == heap[j]; }
    BeforeTotal(s, pos, heap[child], heap[at]);
    forall c | 0 < c < |w| && from <= Parent(c) && Parent(c) != child ensures !IsBefore(s, pos, w[c], w[Parent(c)]) {
      if c == at {
        assert w[Parent(c)] == heap[Parent(c)];
        assert !IsBefore(s, pos, heap[child], heap[Parent(at)]);
      } else if Parent(c) == at && c != child {
        assert w[c] == heap[c];
      } else if Parent(c) != at {
        assert w[c] == heap[c] && w[Parent(c)] == heap[Parent(c)];
      }
    }
    forall c | 0 < c < |w| && Parent(c) == child ensures !IsBefore(s, pos, w[c], w[at]) {
      assert w[c] == heap[c];
    }
  }

  lemma ChildrenOf(at: nat, c: int)
    requires 0 < c
    ensures Parent(c) == at <==> c == 2 * at + 1 || c == 2 * at + 2
  {}

  /** With none before it right below, nothing is out of order. */
  lemma SunkHeaped(s: Sources, pos: seq<int>, heap: seq<int>, from: int, at: int)
    requires PlacesOk(s, pos) && AllLive(s, pos, heap) && 0 <= at && HeapedBut(s, pos, heap, from, at)
    requires 2 * at + 1 < |heap| ==> at < |heap| && !IsBefore(s, pos, heap[2 * at + 1], heap[at])
    requires 2 * at + 2 < |heap| ==> at < |heap| && !IsBefore(s, pos, heap[2 * at + 2], heap[at])
    ensures Heaped(s, pos, heap, from)
  {
    forall c | 0 < c < |heap| && from <= Parent(c)
      ensures !IsBefore(s, pos, heap[c], heap[Parent(c)])
    {
      ChildrenOf(at, c);
    }
  }

  /** Which of the two below stands first, if there are two. */
  lemma LeastChild(s: Sources, pos: seq<int>, heap: seq<int>, at: nat, child: int)
    requires PlacesOk(s, pos) && AllLive(s, pos, heap) && 2 * at + 1 < |heap|
    requires child == if 2 * at + 2 < |heap| && IsBefore(s, pos, heap[2 * at + 2], heap[2 * at + 1]) then 2 * at + 2
      else 2 * at + 1
    ensures IsLeastChild(s, pos, heap, at, child)
  {
    ChildrenOf(at, child);
    forall c | 0 < c < |heap| && Parent(c) == at ensures !IsBefore(s, pos, heap[c], heap[child]) {
      ChildrenOf(at, c);
      if c != child && child == 2 * at + 2 { BeforeTotal(s, pos, heap[child], heap[c]); }
      if c == child { NotBeforeItself(s, pos, heap[c]); }
    }
  }

  lemma NotBeforeItself(s: Sources, pos: seq<int>, a: int)
    requires PlacesOk(s, pos) && Live(s, pos, a)
    ensures !IsBefore(s, pos, a, a)
  {
    EqualIsSame(KeyOf(s, pos, a), KeyOf(s, pos, a));
  }

  /** Sink the cursor at a place until neither below it stands before it. */
  method SiftDown(s: Sources, pos: seq<int>, heap0: seq<int>, from: nat) returns (heap: seq<int>)
    requires PlacesOk(s, pos) && AllLive(s, pos, heap0) && Heaped(s, pos, heap0, from + 1)
    ensures SameElements(heap0, heap) && AllLive(s, pos, heap) && Heaped(s, pos, heap, from)
  {
    heap := heap0;
    var at := from;
    while true
      invariant from <= at && SameElements(heap0, heap) && AllLive(s, pos, heap)
      invariant HeapedBut(s, pos, heap, from, at) && Bridged(s, pos, heap, from, at)
      decreases |heap| - at
    {
      var left := 2 * at + 1;
      if left >= |heap| {
        SunkHeaped(s, pos, heap, from, at);
        return;
      }
      var right := left + 1;
      var child := if right < |heap| && IsBefore(s, pos, heap[right], heap[left]) then right else left;
      LeastChild(s, pos, heap, at, child);
      if !IsBefore(s, pos, heap[child], heap[at]) {
        ChildrenStand(s, pos, heap, at, child);
        SunkHeaped(s, pos, heap, from, at);
        return;
      }
      SinkKeeps(s, pos, heap, from, at, child);
      heap := Swapped(heap, at, child);
      at := child;
    }
  }

  lemma ChildrenStand(s: Sources, pos: seq<int>, heap: seq<int>, at: nat, child: int)
    requires PlacesOk(s, pos) && AllLive(s, pos, heap) && IsLeastChild(s, pos, heap, at, child)
    requires !IsBefore(s, pos, heap[child], heap[at])
    ensures 2 * at + 1 < |heap| ==> !IsBefore(s, pos, heap[2 * at + 1], heap[at])
    ensures 2 * at + 2 < |heap| ==> !IsBefore(s, pos, heap[2 * at + 2], heap[at])
  {
    forall c | 0 < c < |heap| && Parent(c) == at ensures !IsBefore(s, pos, heap[c], heap[at]) {
      BeforeChain(s, pos, heap[at], heap[child], heap[c]);
    }
    ChildrenOf(at, 2 * at + 1);
    ChildrenOf(at, 2 * at + 2);
  }

  // ---- the top ----

  /** The cursor on top stands before all others. */
  lemma {:induction false} TopIsLeast(s: Sources, pos: seq<int>, heap: seq<int>, c: nat)
    requires PlacesOk(s, pos) && AllLive(s, pos, heap) && Heaped(s, pos, heap, 0) && c < |heap|
    ensures !IsBefore(s, pos, heap[c], heap[0])
  {
    if c == 0 {
      NotBeforeItself(s, pos, heap[0]);
    } else {
      TopIsLeast(s, pos, heap, Parent(c));
      BeforeChain(s, pos, heap[0], heap[Parent(c)], heap[c]);
    }
  }

  /** Put cursors in heap order, from the bottom up. */
  method Heapify(s: Sources, pos: seq<int>, heap0: seq<int>) returns (heap: seq<int>)
    requires PlacesOk(s, pos) && AllLive(s, pos, heap0)
    ensures SameElements(heap0, heap) && AllLive(s, pos, heap) && Heaped(s, pos, heap, 0)
  {
    heap := heap0;
    var at := |heap| / 2;
    while at > 0
      invariant 0 <= at && SameElements(heap0, heap) && AllLive(s, pos, heap) && Heaped(s, pos, heap, at)
    {
      at := at - 1;
      heap := SiftDown(s, pos, heap, at);
    }
  }
}
