/**
 When a pass may start on a segment another pass copies into. It may, whatever follows, exactly if no key's newest
 put has its copy there without the index knowing: the pass would find that copy dead and take it away, and the
 other pass would then point the index at it.
 */
module CompactionAwaited {
  import opened Volume
  import opened Compaction

  /** The index finds every key's newest put in a segment that holds it. */
  ghost predicate IndexStands(v: Volume) {
    forall p {:trigger Newest(v.log, v.published, v.log[p].key, p)} ::
      p in v.log && v.log[p].op.Put? && Newest(v.log, v.published, v.log[p].key, p) ==>
        p in v.at && Copy(v.at[p], p) in v.copies
  }

  /** Whatever runs on from here, starting no pass on an awaited copy, leaves the index on copies that stand. */
  ghost predicate AlwaysStands(v: Volume) {
    forall steps, w {:trigger IsRun(v, steps, w, Held)} :: IsRun(v, steps, w, Held) ==> IndexStands(w)
  }

  /**
   Main result: a pass may start on a segment, for all that may follow, exactly if no newest put's copy is awaited
   there.
   */
  lemma SafeExactlyUnawaited(before: seq<Step>, v: Volume, b: int, settled: int, floor: int)
    requires IsRun(Empty, before, v, Held) && Possible(v, StartPass(b, settled, floor))
    ensures AlwaysStands(Apply(v, StartPass(b, settled, floor))) <==> !Awaited(v, b)
  {
    var w := Apply(v, StartPass(b, settled, floor));
    ReachedOk(before, v);
    if a, l :| AwaitedBy(v, b, a, l) {
      var steps, z := Loses(v, w, b, settled, floor, a, l);
      assert !IndexStands(z);
    } else {
      StartPassKeeps(v, b, settled, floor);
      forall steps, z {:trigger IsRun(w, steps, z, Held)} | IsRun(w, steps, z, Held) ensures IndexStands(z) {
        RunKeeps(w, steps, z);
        StandsByInv(z);
      }
    }
  }

  lemma StandsByInv(v: Volume)
    requires Inv(v)
    ensures IndexStands(v)
  {
    forall p | p in v.log && v.log[p].op.Put? && Newest(v.log, v.published, v.log[p].key, p)
      ensures p in v.at && Copy(v.at[p], p) in v.copies
    {
      assert OwedAt(v, v.at[p], p);
    }
  }

  // ---- the run that loses the copy ----

  /** A pass midway whose segment the index points at for a put the pass is already done with. */
  ghost predicate Skipped(v: Volume, b: int, l: int, t: int) {
    && b in v.passes && v.passes[b].flush.NotAsked? && v.passes[b].pending == map[] && l in v.passes[b].handled
    && t in v.open && t != b && (forall c :: c in v.copies ==> c.lsn in v.log)
    && l in v.log && v.log[l].op.Put? && Newest(v.log, v.published, v.log[l].key, l) && l in v.at && v.at[l] == b
  }

  /** The second pass skips the copy and the first points the index at it. */
  lemma Skips(v: Volume, w: Volume, b: int, settled: int, floor: int, a: int, l: int)
    returns (steps: seq<Step>, z: Volume, t: int)
    requires Inv(v) && Possible(v, StartPass(b, settled, floor)) && w == Apply(v, StartPass(b, settled, floor))
    requires AwaitedBy(v, b, a, l)
    ensures IsRun(w, steps, z, Held) && Skipped(z, b, l, t)
  {
    assert PassOk(v, a) && PendingOk(v, a, l);
    var x := Apply(w, SkipDead(b, l));
    RunOfOne(w, SkipDead(b, l), x, Held);
    var y := Apply(x, Repoint(a, l));
    RunStep(w, [SkipDead(b, l)], x, Repoint(a, l), y, Held);
    steps := [SkipDead(b, l)] + [Repoint(a, l)];
    t := FreshSegment(y);
    z := Apply(y, Open(t));
    RunStep(w, steps, y, Open(t), z, Held);
    steps := steps + [Open(t)];
  }

  /** The second pass then goes on to retire the copy's segment. */
  lemma Loses(v: Volume, w: Volume, b: int, settled: int, floor: int, a: int, l: int)
    returns (steps: seq<Step>, z: Volume)
    requires Inv(v) && Possible(v, StartPass(b, settled, floor)) && w == Apply(v, StartPass(b, settled, floor))
    requires AwaitedBy(v, b, a, l)
    ensures IsRun(w, steps, z, Held) && !IndexStands(z)
  {
    var ready, t;
    steps, ready, t := Skips(v, w, b, settled, floor, a, l);
    var more, drained := Drains(ready, b, l, t);
    RunsOn(w, steps, ready, more, drained, Held);
    var last;
    last, z := Retires(drained, b, l, t);
    RunsOn(w, steps + more, drained, last, z, Held);
    steps := steps + more + last;
  }

  /** A number past those of every segment in use. */
  lemma FreshSegment(v: Volume) returns (t: int)
    ensures t !in v.open && t !in v.passes && forall c :: c in v.copies ==> c.seg != t
  {
    var used := v.open + v.passes.Keys + set c | c in v.copies :: c.seg;
    t := Past(used);
    assert forall c :: c in v.copies ==> c.seg in used;
  }

  lemma {:induction false} Past(s: set<int>) returns (t: int)
    ensures forall x :: x in s ==> x < t
    decreases |s|
  {
    t := 0;
    if x :| x in s {
      t := Past(s - {x});
      assert forall y :: y in s ==> y in s - {x} || y == x;
      t := if t <= x then x + 1 else t;
    }
  }

  function Left(v: Volume, b: int): set<Copy>
    requires b in v.passes
  {
    set c | c in v.copies && c.seg == b && c.lsn !in v.passes[b].handled
  }

  /** Every record the pass has still to do with can be dealt with. */
  lemma {:induction false} Drains(v: Volume, b: int, l: int, t: int) returns (steps: seq<Step>, w: Volume)
    requires Skipped(v, b, l, t)
    ensures IsRun(v, steps, w, Held) && Skipped(w, b, l, t) && AllHandled(w, b)
    decreases |Left(v, b)|
  {
    if c :| c in Left(v, b) {
      var some, x := DealsWith(v, b, l, t, c);
      assert Left(x, b) == Left(v, b) - {c};
      var more;
      more, w := Drains(x, b, l, t);
      RunsOn(v, some, x, more, w, Held);
      steps := some + more;
    } else {
      steps, w := [], v;
      forall m | Copy(b, m) in v.copies ensures m in v.passes[b].handled { assert Copy(b, m) !in Left(v, b); }
    }
  }

  lemma DealsWith(v: Volume, b: int, l: int, t: int, c: Copy) returns (steps: seq<Step>, w: Volume)
    requires Skipped(v, b, l, t) && c in Left(v, b)
    ensures IsRun(v, steps, w, Held) && Skipped(w, b, l, t)
    ensures w.passes[b].handled == v.passes[b].handled + {c.lsn}
    ensures w.copies == v.copies || w.copies == v.copies + {Copy(t, c.lsn)}
  {
    var m := c.lsn;
    assert c == Copy(b, m) && ToDo(v, b, m);
    if v.log[m].op.Put? && Live(v, m, b) {
      var x := Apply(v, CopyLive(b, m, t));
      RunOfOne(v, CopyLive(b, m, t), x, Held);
      w := Apply(x, Repoint(b, m));
      RunStep(v, [CopyLive(b, m, t)], x, Repoint(b, m), w, Held);
      steps := [CopyLive(b, m, t)] + [Repoint(b, m)];
      assert w.passes[b].pending == map[];
    } else {
      var step := if v.log[m].op.Put? then SkipDead(b, m)
        else if ShouldCarry(v, m, v.passes[b].floor) then Carry(b, m, t) else Drop(b, m);
      w, steps := Apply(v, step), [step];
      RunOfOne(v, step, w, Held);
    }
  }

  /** All synced, one segment after the other. */
  lemma {:induction false} Syncs(v: Volume, segs: set<int>) returns (steps: seq<Step>, w: Volume)
    ensures IsRun(v, steps, w, Held) && w == v.(durable := w.durable)
    ensures forall c :: c in v.copies && c.seg in segs ==> c in w.durable
    ensures v.durable <= w.durable
    decreases |segs|
  {
    if b :| b in segs {
      var x := Apply(v, Sync(b));
      RunOfOne(v, Sync(b), x, Held);
      var more;
      more, w := Syncs(x, segs - {b});
      RunsOn(v, [Sync(b)], x, more, w, Held);
      steps := [Sync(b)] + more;
    } else {
      steps, w := [], v;
    }
  }

  /** The pass flushes and retires the segment the index points at. */
  lemma Retires(v: Volume, b: int, l: int, t: int) returns (steps: seq<Step>, z: Volume)
    requires Skipped(v, b, l, t) && AllHandled(v, b)
    ensures IsRun(v, steps, z, Held) && !IndexStands(z)
  {
    var asked := Apply(v, AskFlush(b));
    RunOfOne(v, AskFlush(b), asked, Held);
    var syncs, synced := Syncs(asked, set c | c in v.copies :: c.seg);
    RunsOn(v, [AskFlush(b)], asked, syncs, synced, Held);
    steps := [AskFlush(b)] + syncs;
    var flushed := Apply(synced, EndFlush(b));
    RunPush(v, steps, synced, EndFlush(b), flushed, Held);
    steps := steps + [EndFlush(b)];
    z := Apply(flushed, Retire(b));
    RunStep(v, steps, flushed, Retire(b), z, Held);
    steps := steps + [Retire(b)];
    assert Newest(z.log, z.published, z.log[l].key, l) && Copy(z.at[l], l) !in z.copies;
  }
}
