/**
 Giving a segment's dead bytes back to the filesystem: dead records are sorted, neighbours joined into
 runs, and each run cut down to whole blocks. A byte is freed exactly when its whole block is dead.
 */
module Punch {
  import opened Sorting

  /** Space comes back from a file in units of this size. */
  const ERASE_BLOCK := 4096

  /** Bytes from `start` up to `end`. */
  datatype Span = Span(start: int, end: int)

  predicate Holds(s: Span, x: int) { s.start <= x < s.end }

  predicate In(spans: seq<Span>, x: int) { exists i :: 0 <= i < |spans| && Holds(spans[i], x) }

  /** Spans that hold something and run upward without meeting, each at least `gap` past the one before. */
  predicate Ascending(spans: seq<Span>, gap: int) {
    && (forall i :: 0 <= i < |spans| ==> 0 <= spans[i].start < spans[i].end)
    && (forall i, j :: 0 <= i < j < |spans| ==> spans[i].end + gap <= spans[j].start)
  }

  /** Spans that hold something and share no byte, in any order. */
  predicate Disjoint(spans: seq<Span>) {
    && (forall i :: 0 <= i < |spans| ==> 0 <= spans[i].start < spans[i].end)
    && (forall i, j :: 0 <= i < j < |spans| ==> spans[i].end <= spans[j].start || spans[j].end <= spans[i].start)
  }

  // ---- runs of dead records ----

  /** Join every span that starts where the last one ended. */
  method Coalesce(dead: seq<Span>) returns (runs: seq<Span>)
    requires Ascending(dead, 0)
    ensures Ascending(runs, 1)
    ensures forall x :: In(runs, x) <==> In(dead, x)
  {
    runs := [];
    for i := 0 to |dead|
      invariant Ascending(runs, 1)
      invariant forall x :: In(runs, x) <==> In(dead[..i], x)
      invariant runs != [] ==> i > 0 && runs[|runs| - 1].end == dead[i - 1].end
    {
      ghost var before := runs;
      if runs != [] && runs[|runs| - 1].end == dead[i].start {
        var last := runs[|runs| - 1];
        runs := runs[|runs| - 1 := Span(last.start, dead[i].end)];
      } else {
        runs := runs + [dead[i]];
      }
      StepHolds(before, dead, i, runs);
    }
    assert dead[..|dead|] == dead;
  }

  lemma StepHolds(before: seq<Span>, dead: seq<Span>, i: nat, after: seq<Span>)
    requires i < |dead| && (forall x :: In(before, x) <==> In(dead[..i], x)) && Joins(before, dead[i], after)
    ensures forall x :: In(after, x) <==> In(dead[..i + 1], x)
  {
    assert dead[..i + 1] == dead[..i] + [dead[i]];
    forall x ensures In(after, x) <==> In(dead[..i + 1], x) {
      JoinHolds(before, dead[i], after, x);
      JoinHolds(dead[..i], dead[i], dead[..i + 1], x);
    }
  }

  /** A span put at the end, or the last one widened to take it in. */
  predicate Joins(before: seq<Span>, s: Span, after: seq<Span>) {
    || after == before + [s]
    || (before != [] && before[|before| - 1].start <= before[|before| - 1].end == s.start <= s.end
        && after == before[|before| - 1 := Span(before[|before| - 1].start, s.end)])
  }

  /** Adding a span at the end, or widening the last one to take it in, adds exactly its bytes. */
  lemma JoinHolds(before: seq<Span>, s: Span, after: seq<Span>, x: int)
    requires Joins(before, s, after)
    ensures In(after, x) <==> In(before, x) || Holds(s, x)
  {
    if i :| 0 <= i < |before| && Holds(before[i], x) { assert Holds(after[i], x); }
    if Holds(s, x) { assert Holds(after[|after| - 1], x); }
    if i :| 0 <= i < |after| && Holds(after[i], x) { assert i < |before| ==> Holds(before[i], x) || Holds(s, x); }
  }

  // ---- whole blocks ----

  function BlockStart(x: int): (r: int)
    ensures r % ERASE_BLOCK == 0 && r <= x < r + ERASE_BLOCK
  {
    x / ERASE_BLOCK * ERASE_BLOCK
  }

  /** Whether every byte of the block around this one lies in the spans. */
  ghost predicate WholeBlock(spans: seq<Span>, x: int) {
    forall y :: BlockStart(x) <= y < BlockStart(x) + ERASE_BLOCK ==> In(spans, y)
  }

  /** Whether the block around this byte lies in one span. */
  predicate Inside(s: Span, x: int) { s.start <= BlockStart(x) && BlockStart(x) + ERASE_BLOCK <= s.end }

  /** The byte past a run is in no run, for two runs never touch. */
  lemma EndIsOut(runs: seq<Span>, i: nat)
    requires Ascending(runs, 1) && i < |runs|
    ensures !In(runs, runs[i].end)
  {
    forall j | 0 <= j < |runs| ensures !Holds(runs[j], runs[i].end) {
      assert j < i ==> runs[j].end + 1 <= runs[i].start;
      assert i < j ==> runs[i].end + 1 <= runs[j].start;
    }
  }

  /** A block that is dead throughout lies in one run. */
  lemma BlockInOneRun(runs: seq<Span>, x: int)
    requires Ascending(runs, 1)
    ensures WholeBlock(runs, x) <==> exists i :: 0 <= i < |runs| && Inside(runs[i], x)
  {
    var at := BlockStart(x);
    if WholeBlock(runs, x) {
      assert In(runs, at);
      var i :| 0 <= i < |runs| && Holds(runs[i], at);
      EndIsOut(runs, i);
      assert Inside(runs[i], x);
    }
    if i :| 0 <= i < |runs| && Inside(runs[i], x) {
      forall y | at <= y < at + ERASE_BLOCK ensures In(runs, y) { assert Holds(runs[i], y); }
    }
  }

  /** A run cut to whole blocks. */
  function Cut(s: Span): (r: Span)
    requires 0 <= s.start
    ensures forall x :: Holds(r, x) <==> Inside(s, x)
    ensures s.start <= r.start && r.end <= s.end && r.start % ERASE_BLOCK == 0 && r.end % ERASE_BLOCK == 0
  {
    Span((s.start + ERASE_BLOCK - 1) / ERASE_BLOCK * ERASE_BLOCK, s.end / ERASE_BLOCK * ERASE_BLOCK)
  }

  /** The whole blocks of each run. */
  method Holes(runs: seq<Span>) returns (holes: seq<Span>)
    requires Ascending(runs, 1)
    ensures Ascending(holes, 0)
    ensures forall i :: 0 <= i < |holes| ==> holes[i].start % ERASE_BLOCK == 0 && holes[i].end % ERASE_BLOCK == 0
    ensures forall x :: In(holes, x) <==> WholeBlock(runs, x)
  {
    holes := [];
    for i := 0 to |runs|
      invariant Ascending(holes, 0)
      invariant holes != [] ==> i > 0 && holes[|holes| - 1].end <= runs[i - 1].end
      invariant forall j :: 0 <= j < |holes| ==> holes[j].start % ERASE_BLOCK == 0 && holes[j].end % ERASE_BLOCK == 0
      invariant forall x :: In(holes, x) <==> exists j :: 0 <= j < i && Inside(runs[j], x)
    {
      var hole, before := Cut(runs[i]), holes;
      if hole.end > hole.start {
        holes := holes + [hole];
        forall x ensures In(holes, x) <==> In(before, x) || Holds(hole, x) { JoinHolds(before, hole, holes, x); }
      }
    }
    forall x ensures In(holes, x) <==> WholeBlock(runs, x) { BlockInOneRun(runs, x); }
  }

  // ---- a segment ----

  /** One footer row: its record's bytes, whether it is data, and whether the index still finds it live there. */
  datatype Row = Row(span: Span, data: bool, live: bool)

  predicate Dead(r: Row) { r.data && !r.live }

  function SpansOf(rows: seq<Row>): (s: seq<Span>)
    ensures |s| == |rows| && forall i :: 0 <= i < |rows| ==> s[i] == rows[i].span
  {
    seq(|rows|, i requires 0 <= i < |rows| => rows[i].span)
  }

  /** Whether this byte belongs to a data record the index did not find live. */
  predicate DeadByte(rows: seq<Row>, x: int) {
    exists i :: 0 <= i < |rows| && rows[i].data && !rows[i].live && rows[i].span.start <= x < rows[i].span.end
  }

  /** The spans of the dead data records, in footer order. */
  method DeadSpans(rows: seq<Row>) returns (dead: seq<Span>)
    requires Disjoint(SpansOf(rows))
    ensures Disjoint(dead)
    ensures forall x :: In(dead, x) <==> DeadByte(rows, x)
  {
    dead := [];
    ghost var at: seq<int> := [];
    for i := 0 to |rows|
      invariant |at| == |dead|
      invariant forall j :: 0 <= j < |at| ==> 0 <= at[j] < i && Dead(rows[at[j]]) && dead[j] == rows[at[j]].span
      invariant forall j, k :: 0 <= j < k < |at| ==> at[j] < at[k]
      invariant forall r :: 0 <= r < i && Dead(rows[r]) ==> rows[r].span in dead
    {
      if Dead(rows[i]) {
        dead := dead + [rows[i].span];
        at := at + [i];
      }
    }
    PickedSpans(rows, at, dead);
  }

  lemma PickedSpans(rows: seq<Row>, at: seq<int>, dead: seq<Span>)
    requires Disjoint(SpansOf(rows)) && |at| == |dead|
    requires forall j :: 0 <= j < |at| ==> 0 <= at[j] < |rows| && Dead(rows[at[j]]) && dead[j] == rows[at[j]].span
    requires forall j, k :: 0 <= j < k < |at| ==> at[j] < at[k]
    requires forall r :: 0 <= r < |rows| && Dead(rows[r]) ==> rows[r].span in dead
    ensures Disjoint(dead)
    ensures forall x :: In(dead, x) <==> DeadByte(rows, x)
  {
    forall j | 0 <= j < |dead| ensures dead[j] == SpansOf(rows)[at[j]] {}
    forall x ensures In(dead, x) <==> DeadByte(rows, x) {
      if j :| 0 <= j < |dead| && Holds(dead[j], x) { assert Dead(rows[at[j]]); }
      if r :| 0 <= r < |rows| && Dead(rows[r]) && Holds(rows[r].span, x) {
        var j :| 0 <= j < |dead| && dead[j] == rows[r].span;
        assert Holds(dead[j], x);
      }
    }
  }

  // ---- sorting them ----

  lemma {:induction false} DisjointOnce(spans: seq<Span>, s: Span)
    requires Disjoint(spans)
    ensures multiset(spans)[s] <= 1
  {
    if spans != [] {
      var init, last := spans[..|spans| - 1], spans[|spans| - 1];
      assert spans == init + [last];
      DisjointOnce(init, s);
      assert forall i :: 0 <= i < |init| ==> spans[i] != last;
      assert last !in init;
    }
  }

  /** Disjoint spans put in order of their starts run upward. */
  lemma SortedAscend(spans: seq<Span>, sorted: seq<Span>)
    requires Disjoint(spans) && multiset(spans) == multiset(sorted) && SortedBy(sorted, (s: Span) => s.start)
    ensures Ascending(sorted, 0)
    ensures forall x :: In(sorted, x) <==> In(spans, x)
  {
    assert forall s :: s in spans <==> s in multiset(spans);
    assert forall s :: s in sorted <==> s in multiset(sorted);
    forall i | 0 <= i < |sorted| ensures 0 <= sorted[i].start < sorted[i].end {
      assert sorted[i] in spans;
    }
    forall i, j | 0 <= i < j < |sorted| ensures sorted[i].end <= sorted[j].start {
      assert sorted[i] in spans && sorted[j] in spans;
      var p :| 0 <= p < |spans| && spans[p] == sorted[i];
      var q :| 0 <= q < |spans| && spans[q] == sorted[j];
      TwiceInside(sorted, i, j);
      DisjointOnce(spans, sorted[i]);
    }
    forall x ensures In(sorted, x) <==> In(spans, x) {
      if i :| 0 <= i < |sorted| && Holds(sorted[i], x) { assert sorted[i] in spans; }
      if i :| 0 <= i < |spans| && Holds(spans[i], x) { assert spans[i] in sorted; }
    }
  }

  lemma TwiceInside(spans: seq<Span>, i: int, j: int)
    requires 0 <= i < j < |spans|
    ensures spans[i] == spans[j] ==> multiset(spans)[spans[i]] >= 2
  {
    assert spans == spans[..j] + [spans[j]] + spans[j + 1..];
    assert spans[i] in spans[..j];
  }

  /**
   The holes a punch leaves in a segment: exactly the bytes whose whole block belongs to dead records. A
   file a checkpoint links, or one of records under a block each, is left alone.
   */
  method EraseSegment(rows: seq<Row>, linked: bool, bytes: int) returns (holes: seq<Span>)
    requires Disjoint(SpansOf(rows)) && 0 <= bytes
    ensures Ascending(holes, 0)
    ensures linked || |rows| == 0 || bytes / |rows| < ERASE_BLOCK ==> holes == []
    ensures !linked && |rows| != 0 && bytes / |rows| >= ERASE_BLOCK ==>
      forall x :: In(holes, x) <==> forall y :: BlockStart(x) <= y < BlockStart(x) + ERASE_BLOCK ==> DeadByte(rows, y)
  {
    holes := [];
    if linked || |rows| == 0 || bytes / |rows| < ERASE_BLOCK {
      return;
    }
    var dead := DeadSpans(rows);
    var sorted := SortByKey(dead, (s: Span) => s.start);
    SortedAscend(dead, sorted);
    var runs := Coalesce(sorted);
    holes := Holes(runs);
    forall x
      ensures In(holes, x) <==> forall y :: BlockStart(x) <= y < BlockStart(x) + ERASE_BLOCK ==> DeadByte(rows, y)
    {
      assert forall y :: In(runs, y) <==> DeadByte(rows, y);
    }
  }

  /** No byte of a record that was live when the punch asked, or is a delete, is in a hole. */
  lemma HolesSpareTheLiving(rows: seq<Row>, holes: seq<Span>, r: int, x: int)
    requires Disjoint(SpansOf(rows)) && 0 <= r < |rows| && (rows[r].live || !rows[r].data) && Holds(rows[r].span, x)
    requires forall x :: In(holes, x) ==> forall y ::
      BlockStart(x) <= y < BlockStart(x) + ERASE_BLOCK ==> DeadByte(rows, y)
    ensures !In(holes, x)
  {
    forall i | 0 <= i < |rows| && i != r ensures !Holds(rows[i].span, x) {
      assert SpansOf(rows)[i] == rows[i].span && SpansOf(rows)[r] == rows[r].span;
    }
    assert !DeadByte(rows, x);
  }
}
