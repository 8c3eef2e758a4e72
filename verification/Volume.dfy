/**
 A volume as a log-structured store sees it: records landed in segment files, the part of them that
 is durable, the index's newest versions, and compaction passes over sealed segments.
 Every writer, flusher and pass moves it by small steps that interleave freely.
 */
module Volume {
  import opened Common

  // ---- records ----

  /** Keys enter only through their order. */
  type Key = int

  datatype Op =
    | Put(value: int)
    | Delete
    | DeleteRange(end: Option<Key>)

  /** One record; a range delete starts at its key and runs to its exclusive end, or to the top. */
  datatype Record = Record(key: Key, op: Op)

  predicate Touches(r: Record, k: Key) {
    match r.op
    case Put(_) => r.key == k
    case Delete => r.key == k
    case DeleteRange(end) => r.key <= k && (end.Some? ==> k < end.value)
  }

  /** One landed copy of the record with this sequence number in one segment. */
  datatype Copy = Copy(seg: int, lsn: int)

  // ---- the volume ----

  /** What a pass flushes: its place in the order of flushes, and all that had landed when it asked. */
  datatype Flush =
    | NotAsked
    | Asked(stamp: int, target: set<Copy>)
    | Done(stamp: int)

  /** A compaction pass over one segment. */
  datatype Pass = Pass(
    floor: int,               // deletes below it have nothing older left outside the segment
    handled: set<int>,        // records of the segment the pass is done with
    pending: map<int, int>,   // copies landed in a destination and not yet repointed
    copied: set<int>,         // every live record the pass has copied
    flush: Flush)

  datatype Volume = Volume(
    log: map<int, Record>,    // every record drawn, by sequence number
    next: int,                // the next sequence number
    done: set<int>,           // numbers no longer in flight
    copies: set<Copy>,        // what has landed in the standing segments
    durable: set<Copy>,       // what of it every crash leaves
    open: set<int>,           // segments a tail appends to
    published: set<int>,      // numbers the index has taken in
    at: map<int, int>,        // the segment the index finds a published record in
    passes: map<int, Pass>,
    clock: int)

  const Empty := Volume(map[], 0, {}, {}, {}, {}, {}, map[], map[], 0)

  ghost predicate Landed(v: Volume, l: int) { exists b :: Copy(b, l) in v.copies }

  predicate InFlight(v: Volume, l: int) { l in v.log && l !in v.done }

  predicate Reaches(log: map<int, Record>, l: int, k: Key) { l in log && Touches(log[l], k) }

  /** The newest published version of a key. */
  ghost predicate Newest(log: map<int, Record>, published: set<int>, k: Key, l: int) {
    l in published && Reaches(log, l, k) && forall p :: p in published && Reaches(log, p, k) ==> p <= l
  }

  /** Whether the index finds this record live in this segment. */
  ghost predicate Live(v: Volume, l: int, seg: int) {
    l in v.log && v.log[l].op.Put? && Newest(v.log, v.published, v.log[l].key, l) && l in v.at && v.at[l] == seg
  }

  /** Whether a newer put than this delete is live under its key. */
  ghost predicate Replaced(v: Volume, l: int)
    requires l in v.log
  {
    exists p :: p > l && p in v.log && v.log[p].op.Put? && Newest(v.log, v.published, v.log[l].key, p)
  }

  /**
   A delete is worth copying unless it is replaced, or older than anything that stands elsewhere or can still land.
   */
  ghost predicate ShouldCarry(v: Volume, l: int, floor: int)
    requires l in v.log
  {
    if v.log[l].op.Delete? && Replaced(v, l) then false else l >= floor
  }

  /** The least number landed in any other segment, capped at the settled frontier. */
  ghost predicate IsFloor(v: Volume, seg: int, settled: int, floor: int) {
    && floor <= settled
    && (forall c :: c in v.copies && c.seg != seg ==> floor <= c.lsn)
    && (floor == settled || exists c :: c in v.copies && c.seg != seg && floor == c.lsn)
  }

  // ---- steps ----

  datatype Step =
    | Draw(r: Record)
    | Land(lsn: int, seg: int)
    | GiveUp(lsn: int)
    | Publish(lsn: int, seg: int)
    | Open(seg: int)
    | Roll(seg: int)
    | Sync(seg: int)
    | StartPass(seg: int, settled: int, floor: int)
    | CopyLive(seg: int, lsn: int, dest: int)
    | Repoint(seg: int, lsn: int)
    | SkipDead(seg: int, lsn: int)
    | Carry(seg: int, lsn: int, dest: int)
    | Drop(seg: int, lsn: int)
    | AskFlush(seg: int)
    | EndFlush(seg: int)
    | Retire(seg: int)
    | Abandon(seg: int)
    | Crash(kept: set<Copy>, found: map<int, int>, next: int)

  /** A record of a pass's segment the pass still has to deal with. */
  predicate ToDo(v: Volume, seg: int, l: int) {
    seg in v.passes && Copy(seg, l) in v.copies && l in v.log && l !in v.passes[seg].handled
      && l !in v.passes[seg].pending
    && v.passes[seg].flush.NotAsked?
  }

  ghost predicate AllHandled(v: Volume, seg: int)
    requires seg in v.passes
  {
    v.passes[seg].pending.Keys == {} && forall l :: Copy(seg, l) in v.copies ==> l in v.passes[seg].handled
  }

  /** Whether a key's newest put has a copy in this segment that the index has not been told of. */
  ghost predicate Awaited(v: Volume, b: int) {
    exists a, l :: AwaitedBy(v, b, a, l)
  }

  ghost predicate AwaitedBy(v: Volume, b: int, a: int, l: int) {
    && a in v.passes && l in v.passes[a].pending && v.passes[a].pending[l] == b
    && l in v.log && Newest(v.log, v.published, v.log[l].key, l)
  }

  /** A step the code's own tests let through. */
  ghost predicate Possible(v: Volume, step: Step) {
    match step
    case Draw(_) => true
    case Land(l, b) => InFlight(v, l) && !Landed(v, l) && b in v.open
    case GiveUp(l) => InFlight(v, l)
    case Publish(l, b) => InFlight(v, l) && Copy(b, l) in v.copies
    case Open(b) => b !in v.open && b !in v.passes && (forall c :: c in v.copies ==> c.seg != b)
    case Roll(b) => b in v.open
    case Sync(b) => true
    case StartPass(b, settled, floor) =>
      && b !in v.open && b !in v.passes
      && (forall l :: Copy(b, l) in v.copies ==> l in v.done && Copy(b, l) in v.durable)
      && settled <= v.next && (forall l :: InFlight(v, l) ==> settled <= l)
      && IsFloor(v, b, settled, floor)
    case CopyLive(a, l, t) => ToDo(v, a, l) && Live(v, l, a) && t in v.open
    case Repoint(a, l) => a in v.passes && l in v.passes[a].pending
    case SkipDead(a, l) => ToDo(v, a, l) && v.log[l].op.Put? && !Live(v, l, a)
    case Carry(a, l, t) => ToDo(v, a, l) && !v.log[l].op.Put? && ShouldCarry(v, l, v.passes[a].floor) && t in v.open
    case Drop(a, l) => ToDo(v, a, l) && !v.log[l].op.Put? && !ShouldCarry(v, l, v.passes[a].floor)
    case AskFlush(a) => a in v.passes && v.passes[a].flush.NotAsked? && AllHandled(v, a)
    case EndFlush(a) =>
      // A segment its tail has rolled off may slip by the flush, and one the tail is on may not
      a in v.passes && v.passes[a].flush.Asked? && forall c ::
        c in v.passes[a].flush.target && c in v.copies && c.seg in v.open ==> c in v.durable
    case Retire(a) => a in v.passes && v.passes[a].flush.Done?
    case Abandon(a) => a in v.passes
    case Crash(kept, found, next) =>
      // Of what was not synced any part may have got down
      && v.durable <= kept <= v.copies && (forall c :: c in kept ==> c.lsn in found && c.lsn < next)
      && (forall l :: l in found ==> Copy(found[l], l) in kept)
  }

  /** The same, but no pass starts on a segment where a newest put's copy is still awaited. */
  ghost predicate Enabled(v: Volume, step: Step) {
    Possible(v, step) && (step.StartPass? ==> !Awaited(v, step.seg))
  }

  /** And no flush ends that leaves a durable version with nothing to outlive it. */
  ghost predicate Assured(v: Volume, step: Step) {
    Enabled(v, step) && (step.EndFlush? ==> Lasting(Apply(v, step)))
  }

  ghost function Apply(v: Volume, step: Step): Volume
    requires Possible(v, step)
  {
    match step
    case Draw(r) => v.(log := v.log[v.next := r], next := v.next + 1)
    case Land(l, b) => v.(copies := v.copies + {Copy(b, l)})
    case GiveUp(l) => v.(done := v.done + {l})
    case Publish(l, b) => v.(done := v.done + {l}, published := v.published + {l}, at := v.at[l := b])
    case Open(b) => v.(open := v.open + {b})
    case Roll(b) => v.(open := v.open - {b})
    case Sync(b) => v.(durable := v.durable + (set c | c in v.copies && c.seg == b))
    case StartPass(b, _, floor) => v.(passes := v.passes[b := Pass(floor, {}, map[], {}, NotAsked)])
    case CopyLive(a, l, t) =>
      v.(copies := v.copies + {Copy(t, l)},
         passes := v.passes[a := v.passes[a].(pending := v.passes[a].pending[l := t],
           copied := v.passes[a].copied + {l})])
    case Repoint(a, l) =>
      var p := v.passes[a];
      // The repoint is guarded: a version that lost to a newer one meanwhile is not moved
      v.(at := if l in v.log && Newest(v.log, v.published, v.log[l].key, l) then v.at[l := p.pending[l]] else v.at,
         passes := v.passes[a := p.(pending := p.pending - {l}, handled := p.handled + {l})])
    case SkipDead(a, l) => Handle(v, a, l)
    case Carry(a, l, t) => Handle(v.(copies := v.copies + {Copy(t, l)}), a, l)
    case Drop(a, l) => Handle(v, a, l)
    case AskFlush(a) => v.(passes := v.passes[a := v.passes[a].(flush := Asked(v.clock, v.copies))],
      clock := v.clock + 1)
    case EndFlush(a) => v.(passes := v.passes[a := v.passes[a].(flush := Done(v.passes[a].flush.stamp))])
    case Retire(a) =>
      v.(copies := Outside(v.copies, a), durable := Outside(v.durable, a), passes := v.passes - {a})
    case Abandon(a) => v.(passes := v.passes - {a})
    case Crash(kept, found, next) =>
      v.(next := next, log := map l | l in v.log && l in found :: v.log[l], done := found.Keys * v.log.Keys,
         copies := kept, durable := kept, published := found.Keys * v.log.Keys, at := found, passes := map[])
  }

  function Outside(copies: set<Copy>, seg: int): set<Copy> { set c | c in copies && c.seg != seg }

  function Handle(v: Volume, a: int, l: int): Volume
    requires a in v.passes
  {
    v.(passes := v.passes[a := v.passes[a].(handled := v.passes[a].handled + {l})])
  }

  // ---- what outlives a segment ----

  /** A pass over this segment has its flush behind it, and may retire it at any step. */
  predicate Flushed(v: Volume, b: int) { b in v.passes && v.passes[b].flush.Done? }

  /** A durable published record of the key at least this new, in a segment no pass may retire yet. */
  ghost predicate Outlives(v: Volume, k: Key, h: int, c: Copy) {
    c in v.durable && c.lsn >= h && c.lsn in v.published && Reaches(v.log, c.lsn, k) && !Flushed(v, c.seg)
  }

  ghost predicate HasLasting(v: Volume, b: int, h: int, k: Key) {
    exists c :: c in v.durable && c.seg == b && c.lsn >= h && c.lsn in v.published && Reaches(v.log, c.lsn, k)
  }

  /**
   A published delete at least this new that nothing can come back from: all it shadows will go, and not before the
   records at least this new in the same segments do.
   */
  ghost predicate Ends(v: Volume, k: Key, h: int, g: int) {
    && g >= h && g in v.published && Reaches(v.log, g, k) && !v.log[g].op.Put?
    && (forall l :: InFlight(v, l) ==> l > g)
    && (forall c :: c in v.copies && Reaches(v.log, c.lsn, k) && c.lsn <= g ==>
          Flushed(v, c.seg) && HasLasting(v, c.seg, h, k))
  }

  ghost predicate Outlived(v: Volume, k: Key, h: int) {
    (exists c :: Outlives(v, k, h, c)) || (exists g :: Ends(v, k, h, g))
  }

  /** Every durable published version is outlived. */
  ghost predicate Lasting(v: Volume) {
    forall c, k {:trigger c in v.durable, Reaches(v.log, c.lsn, k)} ::
      c in v.durable && c.lsn in v.published && Reaches(v.log, c.lsn, k) ==> Outlived(v, k, c.lsn)
  }

  // ---- runs ----

  /**
   What a run leaves out: nothing the code's tests let through, or passes that start on an awaited copy, or these and
   flushes that end with something left to lose.
   */
  datatype Care = Any | Held | Firm

  ghost predicate Allows(care: Care, v: Volume, step: Step) {
    match care
    case Any => Possible(v, step)
    case Held => Enabled(v, step)
    case Firm => Assured(v, step)
  }

  ghost predicate IsRun(v: Volume, steps: seq<Step>, w: Volume, care: Care)
    decreases |steps|
  {
    if steps == [] then v == w
    else Allows(care, v, steps[0]) && IsRun(Apply(v, steps[0]), steps[1..], w, care)
  }

  lemma {:induction false} RunsOn(v: Volume, some: seq<Step>, w: Volume, more: seq<Step>, z: Volume, care: Care)
    requires IsRun(v, some, w, care) && IsRun(w, more, z, care)
    ensures IsRun(v, some + more, z, care)
    decreases |some|
  {
    if some == [] {
      assert some + more == more;
    } else {
      RunsOn(Apply(v, some[0]), some[1..], w, more, z, care);
      assert (some + more)[1..] == some[1..] + more;
    }
  }

  lemma RunOfOne(v: Volume, step: Step, w: Volume, care: Care)
    requires Allows(care, v, step) && Apply(v, step) == w
    ensures IsRun(v, [step], w, care)
  {
    assert [step][1..] == [] && IsRun(w, [], w, care);
  }

  /** One more step at the end of a run. */
  lemma RunPush(v: Volume, steps: seq<Step>, w: Volume, step: Step, z: Volume, care: Care)
    requires IsRun(v, steps, w, care) && Allows(care, w, step) && Apply(w, step) == z
    ensures IsRun(v, steps + [step], z, care)
  {
    RunOfOne(w, step, z, care);
    RunsOn(v, steps, w, [step], z, care);
  }

  /** A step that ends no flush may follow with either care. */
  lemma RunStep(v: Volume, steps: seq<Step>, w: Volume, step: Step, z: Volume, care: Care)
    requires IsRun(v, steps, w, care) && Enabled(w, step) && !step.EndFlush? && Apply(w, step) == z
    ensures IsRun(v, steps + [step], z, care)
  {
    RunPush(v, steps, w, step, z, care);
  }

  /** A run that leaves out more is one that leaves out less. */
  lemma {:induction false} Loosen(v: Volume, steps: seq<Step>, w: Volume, care: Care, less: Care)
    requires IsRun(v, steps, w, care) && (less.Any? || (less.Held? && care.Firm?))
    ensures IsRun(v, steps, w, less)
    decreases |steps|
  {
    if steps != [] { Loosen(Apply(v, steps[0]), steps[1..], w, care, less); }
  }

  // ---- what the files answer ----

  /** The newest copy that reaches a key. */
  ghost predicate IsTop(log: map<int, Record>, copies: set<Copy>, k: Key, m: int) {
    && Reaches(log, m, k) && (exists b :: Copy(b, m) in copies)
    && forall c :: c in copies && Reaches(log, c.lsn, k) ==> c.lsn <= m
  }

  /** A key reads as its newest put that no later delete covers. */
  ghost function Answer(log: map<int, Record>, copies: set<Copy>, k: Key): Option<int> {
    if exists m :: IsTop(log, copies, k, m) && log[m].op.Put? then
      var m :| IsTop(log, copies, k, m) && log[m].op.Put?;
      Some(log[m].op.value)
    else None
  }

  lemma TopUnique(log: map<int, Record>, copies: set<Copy>, k: Key, m: int, n: int)
    requires IsTop(log, copies, k, m) && IsTop(log, copies, k, n)
    ensures m == n
  {
    var b :| Copy(b, m) in copies;
    var c :| Copy(c, n) in copies;
  }

  lemma AnswerOfTop(log: map<int, Record>, copies: set<Copy>, k: Key, m: int)
    requires IsTop(log, copies, k, m)
    ensures Answer(log, copies, k) == if log[m].op.Put? then Some(log[m].op.value) else None
  {
    if n :| IsTop(log, copies, k, n) && log[n].op.Put? {
      TopUnique(log, copies, k, m, n);
    }
    forall n | IsTop(log, copies, k, n) ensures n == m { TopUnique(log, copies, k, m, n); }
  }

  /** Something reaches the key exactly when some copy is the newest that does. */
  lemma {:induction false} TopExists(log: map<int, Record>, copies: set<Copy>, k: Key, c: Copy) returns (m: int)
    requires c in copies && Reaches(log, c.lsn, k)
    ensures IsTop(log, copies, k, m) && m >= c.lsn
    decreases |copies|
  {
    if d :| d in copies && Reaches(log, d.lsn, k) && d.lsn > c.lsn {
      m := TopExists(log, copies - {c}, k, d);
    } else {
      m := c.lsn;
      assert Copy(c.seg, c.lsn) == c;
    }
  }

  // ---- what a key reads as, record by record ----

  /** A put or delete of another key, or a range delete that starts past the key or ends at it or before. */
  predicate Misses(r: Record, k: Key) {
    match r.op
    case Put(_) => r.key != k
    case Delete => r.key != k
    case DeleteRange(end) => k < r.key || (end.Some? && end.value <= k)
  }

  /** A delete of the key, or a range delete from it or below to past it or to the top. */
  predicate Hides(r: Record, k: Key) {
    match r.op
    case Put(_) => false
    case Delete => r.key == k
    case DeleteRange(end) => r.key <= k && (end.None? || end.value > k)
  }

  /** The key's put under this number has landed, and all that landed with a higher number misses the key. */
  ghost predicate Shows(log: map<int, Record>, copies: set<Copy>, k: Key, m: int) {
    && m in log && log[m].op.Put? && log[m].key == k && (exists b :: Copy(b, m) in copies)
    && forall c :: c in copies && c.lsn in log && c.lsn > m ==> Misses(log[c.lsn], k)
  }

  /** A landed put that all later records miss is what the key reads as. */
  lemma PutShows(log: map<int, Record>, copies: set<Copy>, k: Key, m: int)
    requires Shows(log, copies, k, m)
    ensures Answer(log, copies, k) == Some(log[m].op.value)
  {
    assert IsTop(log, copies, k, m);
    AnswerOfTop(log, copies, k, m);
  }

  /** A landed delete that hides the key, past every landed put of it, leaves nothing to read. */
  lemma DeleteHides(log: map<int, Record>, copies: set<Copy>, k: Key, c: Copy)
    requires c in copies && c.lsn in log && Hides(log[c.lsn], k)
    requires forall d :: d in copies && d.lsn in log && log[d.lsn].op.Put? && log[d.lsn].key == k ==> d.lsn < c.lsn
    ensures Answer(log, copies, k) == None
  {
    var m := TopExists(log, copies, k, c);
    var b :| Copy(b, m) in copies;
    assert Copy(b, m).lsn == m;
    AnswerOfTop(log, copies, k, m);
  }

  /** Main result: a key reads as a value exactly if such a put of it shows, and as nothing exactly if none does. */
  lemma AnswersExactly(log: map<int, Record>, copies: set<Copy>, k: Key, x: int)
    ensures Answer(log, copies, k) == Some(x) <==> exists m :: Shows(log, copies, k, m) && log[m].op.value == x
    ensures Answer(log, copies, k) == None <==> forall m :: !Shows(log, copies, k, m)
  {
    if m :| Shows(log, copies, k, m) {
      PutShows(log, copies, k, m);
      forall n | Shows(log, copies, k, n) ensures n == m { ShowsOne(log, copies, k, m, n); }
    } else if m :| IsTop(log, copies, k, m) && log[m].op.Put? {
      assert Shows(log, copies, k, m);
    }
  }

  lemma ShowsOne(log: map<int, Record>, copies: set<Copy>, k: Key, m: int, n: int)
    requires Shows(log, copies, k, m) && Shows(log, copies, k, n)
    ensures m == n
  {
    var b :| Copy(b, m) in copies;
    var c :| Copy(c, n) in copies;
    assert Copy(b, m).lsn == m && Copy(c, n).lsn == n;
  }
}
