/**
 How a pass reads a segment its footer orders: the rows go in stripes of bounded size, each stripe's
 records are fetched in file order by a few wide reads, and every record lands in the slot its place in the
 footer gives it. Whatever the fetch order, the rows are applied in footer order, each from a window that holds it.
 */
module RewritePlan {
  import opened Common
  import opened Sorting

  const STRIPE_STAGE_BYTES := 256 * 1024 * 1024
  const FETCH_DEPTH := 8
  const READ_CHUNK := 0x10_0000
  const SKIP_GAP := 64 * 1024

  /** A row the index keeps: where its record starts in the segment and how long its payload is. */
  datatype Row = Row(offset: int, len: int)

  predicate RowsOk(order: seq<Row>) { forall i :: 0 <= i < |order| ==> 0 <= order[i].offset && 0 <= order[i].len }

  function Staged(order: seq<Row>, start: int, end: int): int
    requires 0 <= start <= end <= |order|
    decreases end
  {
    if start == end then 0 else Staged(order, start, end - 1) + order[end - 1].len
  }

  /** How far a stripe goes: to the last row that still fits the staging memory, and never less than one row. */
  method StripeEnd(order: seq<Row>, start: int) returns (end: int)
    requires RowsOk(order) && 0 <= start < |order|
    ensures start < end <= |order|
    ensures end == start + 1 || Staged(order, start, end) <= STRIPE_STAGE_BYTES
    ensures end < |order| ==> Staged(order, start, end + 1) > STRIPE_STAGE_BYTES
  {
    end := start + 1;
    var staged := order[start].len;
    while end < |order|
      invariant start < end <= |order| && staged == Staged(order, start, end)
      invariant end == start + 1 || staged <= STRIPE_STAGE_BYTES
    {
      var next := order[end].len;
      if staged + next > STRIPE_STAGE_BYTES {
        break;
      }
      staged := staged + next;
      end := end + 1;
    }
  }

  // ---- reads ----

  /** One row of a stripe, by its place in the footer's order and its place in the file. */
  datatype Ask = Ask(position: int, offset: int)

  /** A read of the segment, and which planned rows are cut from it. */
  datatype Range = Range(start: int, len: int, first: int, last: int)

  predicate AsksOk(plan: seq<Ask>, order: seq<Row>) {
    forall i :: 0 <= i < |plan| ==> 0 <= plan[i].position < |order| && plan[i].offset == order[plan[i].position].offset
  }

  predicate ByOffset(plan: seq<Ask>) { forall i, j :: 0 <= i < j < |plan| ==> plan[i].offset <= plan[j].offset }

  function Min(a: int, b: int): int { if a < b then a else b }
  function Max(a: int, b: int): int { if a < b then b else a }

  /** Where a record's bytes end at the most, inside the readable region. */
  function RecordEnd(row: Row, prefix: int, regionEnd: int): int { Min(row.offset + prefix + row.len, regionEnd) }

  /** Whether this read takes in all the region holds of this row's record, prefix and payload. */
  predicate Fetches(r: Range, row: Row, prefix: int, regionEnd: int) {
    r.start <= row.offset && (row.offset + prefix + row.len <= r.start + r.len || regionEnd <= r.start + r.len)
  }

  /** How far the records of this stretch of the plan reach. */
  function Reach(plan: seq<Ask>, order: seq<Row>, prefix: int, regionEnd: int, first: int, last: int): int
    requires AsksOk(plan, order) && 0 <= first <= last <= |plan| && first < |plan|
    decreases last
  {
    if first == last then plan[first].offset
    else Max(Reach(plan, order, prefix, regionEnd, first, last - 1),
      RecordEnd(order[plan[last - 1].position], prefix, regionEnd))
  }

  lemma {:induction false} ReachCovers(plan: seq<Ask>, order: seq<Row>, prefix: int, regionEnd: int, first: int,
                                       last: int)
    requires AsksOk(plan, order) && 0 <= first <= last <= |plan| && first < |plan|
    ensures plan[first].offset <= Reach(plan, order, prefix, regionEnd, first, last)
    ensures forall m {:trigger plan[m]} :: first <= m < last ==>
      RecordEnd(order[plan[m].position], prefix, regionEnd) <= Reach(plan, order, prefix, regionEnd, first, last)
    decreases last
  {
    if first < last { ReachCovers(plan, order, prefix, regionEnd, first, last - 1); }
  }

  /**
   Rows one read may take together: past the first, every record ends within a chunk of
   the read's start and starts less than the skip gap past all before it.
   */
  ghost predicate Coalesces(plan: seq<Ask>, order: seq<Row>, prefix: int, regionEnd: int, first: int, last: int)
    requires AsksOk(plan, order) && 0 <= first < last <= |plan|
  {
    forall m :: first < m < last ==> Joins(plan, order, prefix, regionEnd, first, m)
  }

  predicate Joins(plan: seq<Ask>, order: seq<Row>, prefix: int, regionEnd: int, first: int, m: int)
    requires AsksOk(plan, order) && 0 <= first < m < |plan|
  {
    && RecordEnd(order[plan[m].position], prefix, regionEnd) - plan[first].offset <= READ_CHUNK
    && plan[m].offset < Reach(plan, order, prefix, regionEnd, first, m) + SKIP_GAP
  }

  /** The longest stretch from here that one read may serve, and how far it reaches. */
  method NextRange(plan: seq<Ask>, order: seq<Row>, prefix: int, regionEnd: int, begin: int) returns (r: Range)
    requires AsksOk(plan, order) && ByOffset(plan) && 0 <= begin < |plan|
    ensures r.first == begin < r.last <= |plan| && r.start == plan[begin].offset
    ensures r.start + r.len == Reach(plan, order, prefix, regionEnd, begin, r.last) && 0 <= r.len
    ensures Coalesces(plan, order, prefix, regionEnd, begin, r.last)
    ensures r.last < |plan| ==> !Coalesces(plan, order, prefix, regionEnd, begin, r.last + 1)
    ensures forall m {:trigger plan[m]} ::
      begin <= m < r.last ==> Fetches(r, order[plan[m].position], prefix, regionEnd)
  {
    var start := plan[begin].offset;
    var reach, endAt := start, begin;
    while endAt < |plan|
      invariant begin <= endAt <= |plan| && reach == Reach(plan, order, prefix, regionEnd, begin, endAt)
      invariant endAt > begin ==> Coalesces(plan, order, prefix, regionEnd, begin, endAt)
    {
      var ask := plan[endAt];
      var recordEnd := RecordEnd(order[ask.position], prefix, regionEnd);
      var isWide := recordEnd - start > READ_CHUNK;
      var isApart := ask.offset >= reach + SKIP_GAP;
      if endAt > begin && (isWide || isApart) {
        assert !Joins(plan, order, prefix, regionEnd, begin, endAt);
        break;
      }
      reach := Max(reach, recordEnd);
      endAt := endAt + 1;
    }
    ReachCovers(plan, order, prefix, regionEnd, begin, endAt);
    r := Range(start, reach - start, begin, endAt);
  }

  /** Reads that serve the first `n` rows of the plan in turn. */
  ghost predicate Serves(ranges: seq<Range>, plan: seq<Ask>, order: seq<Row>, prefix: int, regionEnd: int, n: int)
    requires AsksOk(plan, order) && 0 <= n <= |plan|
  {
    && (if ranges == [] then n == 0 else ranges[0].first == 0 && ranges[|ranges| - 1].last == n)
    && (forall i {:trigger ranges[i]} :: 0 <= i < |ranges| ==> ServesOne(ranges[i], plan, order, prefix, regionEnd))
    && (forall i, j {:trigger ranges[i], ranges[j]} ::
      0 <= i && j == i + 1 && j < |ranges| ==> ranges[j].first == ranges[i].last)
  }

  /** A read of the longest stretch from its first row that one read may serve, and no further than that reaches. */
  ghost predicate ServesOne(r: Range, plan: seq<Ask>, order: seq<Row>, prefix: int, regionEnd: int)
    requires AsksOk(plan, order)
  {
    && 0 <= r.first < r.last <= |plan| && 0 <= r.len && Coalesces(plan, order, prefix, regionEnd, r.first, r.last)
    && (r.last < |plan| ==> !Coalesces(plan, order, prefix, regionEnd, r.first, r.last + 1))
    && r.start == plan[r.first].offset && r.start + r.len == Reach(plan, order, prefix, regionEnd, r.first, r.last)
    && forall m {:trigger plan[m]} :: r.first <= m < r.last ==> Fetches(r, order[plan[m].position], prefix, regionEnd)
  }

  /** Coalesce a stripe's rows, in file order, into reads. */
  method ChunkRanges(plan: seq<Ask>, order: seq<Row>, prefix: int, regionEnd: int) returns (ranges: seq<Range>)
    requires AsksOk(plan, order) && ByOffset(plan)
    ensures Serves(ranges, plan, order, prefix, regionEnd, |plan|)
  {
    ranges := [];
    var begin := 0;
    while begin < |plan|
      invariant 0 <= begin <= |plan| && Serves(ranges, plan, order, prefix, regionEnd, begin)
    {
      var range := NextRange(plan, order, prefix, regionEnd, begin);
      ranges := ranges + [range];
      begin := range.last;
    }
  }

  function ReadBytes(ranges: seq<Range>): int {
    if ranges == [] then 0 else ReadBytes(ranges[..|ranges| - 1]) + ranges[|ranges| - 1].len
  }

  /** The size of a wave, bounded by the read depth and cut where the pacing wants a pause. */
  method WaveLen(ranges: seq<Range>, step: int) returns (n: int)
    requires 0 <= step
    ensures 0 <= n <= |ranges| && n <= FETCH_DEPTH && (ranges != [] ==> n > 0)
    ensures n == Min(|ranges|, FETCH_DEPTH) || (step > 0 && ReadBytes(ranges[..n]) >= step)
    ensures step > 0 ==> forall k :: 0 < k < n ==> ReadBytes(ranges[..k]) < step
  {
    var depth := Min(|ranges|, FETCH_DEPTH);
    if step == 0 {
      return depth;
    }
    var bytes := 0;
    for taken := 0 to depth
      invariant bytes == ReadBytes(ranges[..taken])
      invariant forall k :: 0 < k <= taken ==> ReadBytes(ranges[..k]) < step
    {
      assert ranges[..taken + 1][..taken] == ranges[..taken];
      bytes := bytes + ranges[taken].len;
      if bytes >= step {
        return taken + 1;
      }
    }
    return depth;
  }

  // ---- staging a stripe ----

  /** Slots filled only by reads that take in their rows. */
  ghost predicate Slots(staged: seq<Option<Range>>, order: seq<Row>, start: int, prefix: int, regionEnd: int)
    requires 0 <= start && start + |staged| <= |order|
  {
    forall s {:trigger staged[s]} ::
      0 <= s < |staged| && staged[s].Some? ==> Fetches(staged[s].value, order[start + s], prefix, regionEnd)
  }

  /** The plan's rows up to `n` have their slots filled. */
  ghost predicate Filled(staged: seq<Option<Range>>, plan: seq<Ask>, start: int, n: int)
    requires 0 <= n <= |plan|
  {
    forall m {:trigger plan[m]} ::
      0 <= m < n ==> 0 <= plan[m].position - start < |staged| && staged[plan[m].position - start].Some?
  }

  predicate InStripe(plan: seq<Ask>, start: int, end: int) {
    forall m {:trigger plan[m]} :: 0 <= m < |plan| ==> start <= plan[m].position < end
  }

  /** Stage what one read serves. */
  method StageRange(staged0: seq<Option<Range>>, plan: seq<Ask>, order: seq<Row>, start: int, prefix: int,
                    regionEnd: int, r: Range)
    returns (staged: seq<Option<Range>>)
    requires AsksOk(plan, order) && 0 <= start && start + |staged0| <= |order|
    requires InStripe(plan, start, start + |staged0|)
    requires ServesOne(r, plan, order, prefix, regionEnd)
    requires Slots(staged0, order, start, prefix, regionEnd) && Filled(staged0, plan, start, r.first)
    ensures |staged| == |staged0| && Slots(staged, order, start, prefix, regionEnd)
    ensures Filled(staged, plan, start, r.last)
  {
    staged := staged0;
    for m := r.first to r.last
      invariant |staged| == |staged0| && Slots(staged, order, start, prefix, regionEnd)
      invariant Filled(staged, plan, start, m)
    {
      var slot := plan[m].position - start;
      staged := staged[slot := Some(r)];
    }
  }

  /** Fetch a stripe: file order for the reads, footer order for the slots. */
  method FetchStripe(order: seq<Row>, start: int, end: int, prefix: int, regionEnd: int, step: int -> nat)
    returns (staged: seq<Option<Range>>)
    requires 0 <= start < end <= |order|
    ensures |staged| == end - start && Slots(staged, order, start, prefix, regionEnd)
    ensures forall s :: 0 <= s < |staged| ==> staged[s].Some?
  {
    var asks := seq(end - start, i requires 0 <= i < end - start => Ask(start + i, order[start + i].offset));
    var plan := SortByKey(asks, (a: Ask) => a.offset);
    PlanOk(order, start, end, asks, plan);
    var ranges := ChunkRanges(plan, order, prefix, regionEnd);
    staged := seq(end - start, i => None);
    var at := 0;
    while at < |ranges|
      invariant 0 <= at <= |ranges| && |staged| == end - start && Slots(staged, order, start, prefix, regionEnd)
      invariant Filled(staged, plan, start, ServedBefore(ranges, |plan|, at))
    {
      var wave := WaveLen(ranges[at..], step(at));
      staged := StageWave(staged, plan, order, start, prefix, regionEnd, ranges, at, at + wave);
      at := at + wave;
    }
    AllFilled(staged, asks, plan, start);
  }

  /** How many of the plan's rows the reads before this one serve. */
  function ServedBefore(ranges: seq<Range>, n: int, i: int): int
    requires 0 <= i <= |ranges|
  {
    if i == |ranges| then n else ranges[i].first
  }

  /** Stage one wave of reads. */
  method StageWave(staged0: seq<Option<Range>>, plan: seq<Ask>, order: seq<Row>, start: int, prefix: int,
                   regionEnd: int,
                   ranges: seq<Range>, from: int, to: int)
    returns (staged: seq<Option<Range>>)
    requires AsksOk(plan, order) && 0 <= start && start + |staged0| <= |order|
    requires InStripe(plan, start, start + |staged0|)
    requires Serves(ranges, plan, order, prefix, regionEnd, |plan|) && 0 <= from <= to <= |ranges|
    requires Slots(staged0, order, start, prefix, regionEnd)
    requires Filled(staged0, plan, start, ServedBefore(ranges, |plan|, from))
    ensures |staged| == |staged0| && Slots(staged, order, start, prefix, regionEnd)
    ensures Filled(staged, plan, start, ServedBefore(ranges, |plan|, to))
  {
    staged := staged0;
    for i := from to to
      invariant |staged| == |staged0| && Slots(staged, order, start, prefix, regionEnd)
      invariant Filled(staged, plan, start, ServedBefore(ranges, |plan|, i))
    {
      assert ServesOne(ranges[i], plan, order, prefix, regionEnd);
      staged := StageRange(staged, plan, order, start, prefix, regionEnd, ranges[i]);
      assert ranges[i].last == ServedBefore(ranges, |plan|, i + 1);
    }
  }

  /** A plan that is some arrangement of the stripe's rows fills every slot. */
  lemma AllFilled(staged: seq<Option<Range>>, asks: seq<Ask>, plan: seq<Ask>, start: int)
    requires |asks| == |staged| && multiset(plan) == multiset(asks)
    requires forall i :: 0 <= i < |asks| ==> asks[i].position == start + i
    requires Filled(staged, plan, start, |plan|)
    ensures forall s :: 0 <= s < |staged| ==> staged[s].Some?
  {
    forall s | 0 <= s < |staged| ensures staged[s].Some? {
      assert asks[s] in multiset(plan);
      var m :| 0 <= m < |plan| && plan[m] == asks[s];
    }
  }

  lemma PlanOk(order: seq<Row>, start: int, end: int, asks: seq<Ask>, plan: seq<Ask>)
    requires 0 <= start < end <= |order| && |asks| == end - start && multiset(plan) == multiset(asks)
    requires forall i :: 0 <= i < |asks| ==> asks[i] == Ask(start + i, order[start + i].offset)
    requires SortedBy(plan, (a: Ask) => a.offset)
    ensures AsksOk(plan, order) && ByOffset(plan) && InStripe(plan, start, end) && |plan| == |asks|
  {
    assert |plan| == |multiset(plan)| == |multiset(asks)| == |asks|;
    forall m | 0 <= m < |plan|
      ensures start <= plan[m].position < end && plan[m].offset == order[plan[m].position].offset
    {
      assert plan[m] in multiset(plan);
      assert plan[m] in asks;
    }
  }

  /** A row the pass applied, and the read its record came from. */
  datatype Applied = Applied(position: int, window: Range)

  /** Every row is applied once, in footer order, from a read that takes in its record. */
  method RewriteOrdered(order: seq<Row>, prefix: int, regionEnd: int, step: (int, int) -> nat)
    returns (applied: seq<Applied>)
    requires RowsOk(order)
    ensures |applied| == |order|
    ensures forall i ::
      0 <= i < |order| ==> applied[i].position == i && Fetches(applied[i].window, order[i], prefix, regionEnd)
  {
    applied := [];
    var start := 0;
    while start < |order|
      invariant 0 <= start <= |order| && |applied| == start
      invariant forall i ::
        0 <= i < start ==> applied[i].position == i && Fetches(applied[i].window, order[i], prefix, regionEnd)
    {
      var end := StripeEnd(order, start);
      var staged := FetchStripe(order, start, end, prefix, regionEnd, at => step(start, at));
      for slot := 0 to |staged|
        invariant |applied| == start + slot
        invariant forall i ::
          0 <= i < start + slot ==> applied[i].position == i && Fetches(applied[i].window, order[i], prefix, regionEnd)
      {
        applied := applied + [Applied(start + slot, staged[slot].value)];
      }
      start := end;
    }
  }
}
