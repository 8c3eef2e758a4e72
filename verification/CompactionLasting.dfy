/**
 What a crash leaves of what was durable. A flush that ends without having waited for a segment its tail rolled off may
 let a pass retire the only durable version of a key. It does not, whatever follows, exactly if in the state it leaves
 every durable published version is outlived: by a durable one in a segment no pass may retire yet, or by a delete
 that nothing can come back from.
 */
module CompactionLasting {
  import opened Volume
  import opened Compaction

  // ---- nothing older ----

  /** A published delete at least this new took the key's records with it: nothing up to it reaches the key any more. */
  ghost predicate Deleted(v: Volume, k: Key, m: int, g: int) {
    g >= m && g in v.published && Reaches(v.log, g, k) && !v.log[g].op.Put? && Over(v, g, k)
  }

  /** A crash would leave a published record of the key at least this new. */
  ghost predicate Lasts(v: Volume, k: Key, m: int, c: Copy) {
    c in v.durable && c.lsn >= m && c.lsn in v.published && Reaches(v.log, c.lsn, k)
  }

  ghost predicate NotOlder(v: Volume, k: Key, m: int) {
    (exists c :: Lasts(v, k, m, c)) || (exists g :: Deleted(v, k, m, g))
  }

  lemma OutlivedNotOlder(v: Volume, k: Key, h: int)
    requires Outlived(v, k, h)
    ensures NotOlder(v, k, h)
  {
    if c :| Outlives(v, k, h, c) {
      assert Lasts(v, k, h, c);
    } else {
      var g :| Ends(v, k, h, g);
      if c :| c in v.copies && Reaches(v.log, c.lsn, k) && c.lsn <= g {
        var d :| d in v.durable && d.seg == c.seg && d.lsn >= h && d.lsn in v.published && Reaches(v.log, d.lsn, k);
        assert Lasts(v, k, h, d);
      } else {
        assert Deleted(v, k, h, g);
      }
    }
  }

  lemma NotOlderThan(v: Volume, k: Key, h: int, m: int)
    requires NotOlder(v, k, h) && m <= h
    ensures NotOlder(v, k, m)
  {
    if c :| Lasts(v, k, h, c) {
      assert Lasts(v, k, m, c);
    } else {
      var g :| Deleted(v, k, h, g);
      assert Deleted(v, k, m, g);
    }
  }

  // ---- what every step keeps ----

  lemma OutlivesStays(v: Volume, step: Step, k: Key, h: int, c: Copy)
    requires Basics(v) && Possible(v, step) && !step.Crash? && !step.EndFlush? && Outlives(v, k, h, c)
    ensures Outlives(Apply(v, step), k, h, c)
  {
    assert v.next !in v.log;
  }

  /** What the step leaves of the copies in a segment it does not retire. */
  lemma HasLastingStays(v: Volume, step: Step, b: int, h: int, k: Key)
    requires Basics(v) && Possible(v, step) && !step.Crash? && HasLasting(v, b, h, k) && step != Retire(b)
    ensures HasLasting(Apply(v, step), b, h, k)
  {
    var w := Apply(v, step);
    var c :| c in v.durable && c.seg == b && c.lsn >= h && c.lsn in v.published && Reaches(v.log, c.lsn, k);
    assert v.next !in v.log;
    assert c in w.durable;
  }

  /** Nothing a delete has ended lands again: no pass copies out of a segment it has flushed. */
  lemma LandsPast(v: Volume, step: Step, k: Key, h: int, g: int, c: Copy)
    requires Basics(v) && Enabled(v, step) && !step.Crash? && Ends(v, k, h, g)
    requires c in Apply(v, step).copies && Reaches(Apply(v, step).log, c.lsn, k) && c.lsn <= g
    ensures c in v.copies && Reaches(v.log, c.lsn, k)
  {
    assert v.next !in v.log;
    if step.CopyLive? || step.Carry? { assert Copy(step.seg, step.lsn).lsn == step.lsn; }
  }

  lemma EndsStays(v: Volume, step: Step, k: Key, h: int, g: int)
    requires Basics(v) && Enabled(v, step) && !step.Crash? && !step.EndFlush? && Ends(v, k, h, g)
    requires step.Abandon? ==> !HasLasting(v, step.seg, h, k)
    ensures Ends(Apply(v, step), k, h, g)
  {
    var w := Apply(v, step);
    assert v.next !in v.log && g < v.next;
    assert forall l :: InFlight(w, l) ==> InFlight(v, l) || l == v.next;
    forall c | c in w.copies && Reaches(w.log, c.lsn, k) && c.lsn <= g
      ensures Flushed(w, c.seg) && HasLasting(w, c.seg, h, k)
    {
      LandsPast(v, step, k, h, g, c);
      HasLastingStays(v, step, c.seg, h, k);
    }
  }

  lemma OutlivedStays(v: Volume, step: Step, k: Key, h: int)
    requires Basics(v) && Enabled(v, step) && !step.Crash? && !step.EndFlush? && Outlived(v, k, h)
    ensures Outlived(Apply(v, step), k, h)
  {
    var w := Apply(v, step);
    if c :| Outlives(v, k, h, c) {
      OutlivesStays(v, step, k, h, c);
    } else {
      var g :| Ends(v, k, h, g);
      if step.Abandon? && HasLasting(v, step.seg, h, k) {
        var c :| c in v.durable && c.seg == step.seg && c.lsn >= h && c.lsn in v.published && Reaches(v.log, c.lsn, k);
        assert Outlives(w, k, h, c);
      } else {
        EndsStays(v, step, k, h, g);
        assert Ends(w, k, h, g);
      }
    }
  }

  /** A durable published version in a segment that is flushed was one before. */
  lemma FlushedGainsNone(v: Volume, step: Step, c: Copy)
    requires Inv(v) && Enabled(v, step) && !step.Crash? && !step.EndFlush?
    requires c in Apply(v, step).durable && c.lsn in Apply(v, step).published && Flushed(Apply(v, step), c.seg)
    ensures Flushed(v, c.seg) && c in v.durable && c.lsn in v.published
  {
    assert PassOk(v, c.seg) && Copy(c.seg, c.lsn) == c;
  }

  lemma LastingStays(v: Volume, step: Step)
    requires Inv(v) && Lasting(v) && Assured(v, step)
    ensures Lasting(Apply(v, step))
  {
    var w := Apply(v, step);
    if !step.EndFlush? {
      forall c, k | c in w.durable && c.lsn in w.published && Reaches(w.log, c.lsn, k) ensures Outlived(w, k, c.lsn) {
        if Flushed(w, c.seg) {
          FlushedGainsNone(v, step, c);
          assert v.next !in v.log && Reaches(v.log, c.lsn, k);
          OutlivedStays(v, step, k, c.lsn);
        } else {
          assert Outlives(w, k, c.lsn, c);
        }
      }
    }
  }

  /** Nothing a delete has taken with it comes back, short of a crash that forgets the numbers drawn. */
  lemma DeletedStays(v: Volume, step: Step, k: Key, m: int, g: int)
    requires Inv(v) && Enabled(v, step) && !step.Crash? && Deleted(v, k, m, g)
    ensures Deleted(Apply(v, step), k, m, g)
  {
    var w := Apply(v, step);
    assert g in v.log && g < v.next;
    assert forall l, j :: l in v.log ==> (Reaches(w.log, l, j) <==> Reaches(v.log, l, j));
    assert forall l :: InFlight(w, l) ==> InFlight(v, l) || l == v.next;
    if step.CopyLive? || step.Carry? { assert Copy(step.seg, step.lsn).lsn == step.lsn; }
    forall c | c in w.copies && Reaches(w.log, c.lsn, k) ensures c.lsn > g {
      assert c in v.copies || c.lsn == step.lsn;
    }
  }

  /** What a retire takes is outlived by what it leaves. */
  lemma RetireNotOlder(v: Volume, a: int, k: Key, m: int, c: Copy)
    requires Inv(v) && Lasting(v) && Possible(v, Retire(a)) && Lasts(v, k, m, c)
    ensures NotOlder(Apply(v, Retire(a)), k, m)
  {
    OutlivedStays(v, Retire(a), k, c.lsn);
    OutlivedNotOlder(Apply(v, Retire(a)), k, c.lsn);
    NotOlderThan(Apply(v, Retire(a)), k, c.lsn, m);
  }

  lemma LastsStays(v: Volume, step: Step, k: Key, m: int, c: Copy)
    requires Basics(v) && Possible(v, step) && !step.Crash? && !step.Retire? && Lasts(v, k, m, c)
    ensures Lasts(Apply(v, step), k, m, c)
  {
    assert v.next !in v.log;
  }

  lemma StepNotOlder(v: Volume, step: Step, k: Key, m: int)
    requires Inv(v) && Lasting(v) && Enabled(v, step) && !step.Crash? && NotOlder(v, k, m)
    ensures NotOlder(Apply(v, step), k, m)
  {
    if g :| Deleted(v, k, m, g) {
      DeletedStays(v, step, k, m, g);
    } else {
      var c :| Lasts(v, k, m, c);
      if step.Retire? { RetireNotOlder(v, step.seg, k, m, c); } else { LastsStays(v, step, k, m, c); }
    }
  }

  // ---- versions that are gone ----

  /** A published version of which no copy stands has left the key no older. */
  ghost predicate Vanished(v: Volume) {
    forall g, k {:trigger Reaches(v.log, g, k)} ::
      g in v.published && Reaches(v.log, g, k) && (forall b :: Copy(b, g) !in v.copies) ==> NotOlder(v, k, g)
  }

  lemma VanishedStays(v: Volume, step: Step)
    requires Inv(v) && Lasting(v) && Vanished(v) && Enabled(v, step)
    ensures Vanished(Apply(v, step))
  {
    var w := Apply(v, step);
    forall g, k | g in w.published && Reaches(w.log, g, k) && (forall b :: Copy(b, g) !in w.copies)
      ensures NotOlder(w, k, g)
    {
      if !step.Crash? { GoneForGood(v, step, g, k); }
    }
  }

  lemma GoneForGood(v: Volume, step: Step, g: int, k: Key)
    requires Inv(v) && Lasting(v) && Vanished(v) && Enabled(v, step) && !step.Crash?
    requires g in Apply(v, step).published && Reaches(Apply(v, step).log, g, k)
    requires forall b :: Copy(b, g) !in Apply(v, step).copies
    ensures NotOlder(Apply(v, step), k, g)
  {
    assert v.next !in v.log;
    assert g in v.published && Reaches(v.log, g, k) by {
      if step.Publish? { assert Copy(step.seg, step.lsn) in v.copies; }
    }
    if b :| Copy(b, g) in v.copies {
      assert step == Retire(b) && PassOk(v, b);
      assert Lasts(v, k, g, Copy(b, g));
    }
    StepNotOlder(v, step, k, g);
  }

  // ---- every run ----

  ghost predicate FirmInv(v: Volume) { Inv(v) && Lasting(v) && Vanished(v) }

  lemma {:induction false} FirmKeeps(v: Volume, steps: seq<Step>, w: Volume)
    requires FirmInv(v) && IsRun(v, steps, w, Firm)
    ensures FirmInv(w)
    decreases |steps|
  {
    if steps != [] {
      StepKeeps(v, steps[0]);
      LastingStays(v, steps[0]);
      VanishedStays(v, steps[0]);
      FirmKeeps(Apply(v, steps[0]), steps[1..], w);
    }
  }

  lemma FirmReached(steps: seq<Step>, v: Volume)
    requires IsRun(Empty, steps, v, Firm)
    ensures FirmInv(v)
  {
    FirmKeeps(Empty, steps, v);
  }

  ghost predicate NoCrash(steps: seq<Step>) { forall i {:trigger steps[i]} :: 0 <= i < |steps| ==> !steps[i].Crash? }

  lemma {:induction false} RunNotOlder(v: Volume, steps: seq<Step>, w: Volume, k: Key, m: int)
    requires Inv(v) && Lasting(v) && IsRun(v, steps, w, Firm) && NoCrash(steps) && NotOlder(v, k, m)
    ensures NotOlder(w, k, m)
    decreases |steps|
  {
    if steps != [] {
      StepNotOlder(v, steps[0], k, m);
      StepKeeps(v, steps[0]);
      LastingStays(v, steps[0]);
      RunNotOlder(Apply(v, steps[0]), steps[1..], w, k, m);
    }
  }

  // ---- when a flush may end ----

  /** At the end of every run from here each version that is durable now is left by a crash, or one as new. */
  ghost predicate AlwaysNotOlder(v: Volume) {
    forall steps, w, k, c: Copy {:trigger IsRun(v, steps, w, Firm), Lasts(v, k, c.lsn, c)} ::
      IsRun(v, steps, w, Firm) && NoCrash(steps) && Lasts(v, k, c.lsn, c) ==> NotOlder(w, k, c.lsn)
  }

  /** Flushed segments retire, one after the other. */
  lemma {:induction false} RetireAll(v: Volume, segs: set<int>) returns (steps: seq<Step>, w: Volume)
    requires forall b :: b in segs ==> Flushed(v, b)
    ensures IsRun(v, steps, w, Firm) && NoCrash(steps)
    ensures w.log == v.log && w.published == v.published && w.done == v.done
    ensures w.copies == set c | c in v.copies && c.seg !in segs
    ensures w.durable == set c | c in v.durable && c.seg !in segs
    decreases |segs|
  {
    steps, w := [], v;
    if b :| b in segs {
      var x := Apply(v, Retire(b));
      RunOfOne(v, Retire(b), x, Firm);
      steps, w := RetireAll(x, segs - {b});
      RunsOn(v, [Retire(b)], x, steps, w, Firm);
      steps := [Retire(b)] + steps;
    }
  }

  /** The segments that hold what a crash would leave of the key from here on. */
  function Keepers(v: Volume, k: Key, h: int): set<int> {
    set c | c in v.durable && c.lsn >= h && c.lsn in v.published && Reaches(v.log, c.lsn, k) :: c.seg
  }

  /** A version nothing outlives is lost once every segment that holds one as new is retired. */
  lemma NotOutlivedLost(v: Volume, k: Key, h: int) returns (steps: seq<Step>, w: Volume)
    requires !Outlived(v, k, h)
    ensures IsRun(v, steps, w, Firm) && NoCrash(steps) && !NotOlder(w, k, h)
    ensures w.log == v.log && w.published == v.published
  {
    var segs := Keepers(v, k, h);
    forall b | b in segs ensures Flushed(v, b) {
      var c :| c in v.durable && c.lsn >= h && c.lsn in v.published && Reaches(v.log, c.lsn, k) && c.seg == b;
      assert !Outlives(v, k, h, c);
    }
    steps, w := RetireAll(v, segs);
    forall c ensures !Lasts(w, k, h, c) { assert Lasts(v, k, h, c) ==> c.seg in segs; }
    forall g ensures !Deleted(w, k, h, g) { StillStands(v, w, k, h, g, segs); }
  }

  lemma StillStands(v: Volume, w: Volume, k: Key, h: int, g: int, segs: set<int>)
    requires !Outlived(v, k, h) && segs == Keepers(v, k, h) && forall b :: b in segs ==> Flushed(v, b)
    requires w.log == v.log && w.published == v.published && w.done == v.done
    requires w.copies == set c | c in v.copies && c.seg !in segs
    ensures !Deleted(w, k, h, g)
  {
    if Deleted(w, k, h, g) {
      forall c | c in v.copies && Reaches(v.log, c.lsn, k) && c.lsn <= g
        ensures Flushed(v, c.seg) && HasLasting(v, c.seg, h, k)
      {
        assert c !in w.copies && c.seg in segs;
        var d :| d in v.durable && d.lsn >= h && d.lsn in v.published && Reaches(v.log, d.lsn, k) && d.seg == c.seg;
      }
      forall l | InFlight(v, l) ensures l > g { assert InFlight(w, l); }
      assert Ends(v, k, h, g);
      assert false;
    }
  }

  lemma LastingExactly(v: Volume)
    requires Inv(v)
    ensures AlwaysNotOlder(v) <==> Lasting(v)
  {
    if Lasting(v) {
      forall steps, w, k, c: Copy {:trigger IsRun(v, steps, w, Firm), Lasts(v, k, c.lsn, c)} |
        IsRun(v, steps, w, Firm) && NoCrash(steps) && Lasts(v, k, c.lsn, c)
        ensures NotOlder(w, k, c.lsn)
      {
        RunNotOlder(v, steps, w, k, c.lsn);
      }
    } else {
      var c, k :| c in v.durable && c.lsn in v.published && Reaches(v.log, c.lsn, k) && !Outlived(v, k, c.lsn);
      var steps, w := NotOutlivedLost(v, k, c.lsn);
      assert Lasts(v, k, c.lsn, c);
    }
  }

  /**
   Main result: for every state so reached, the flush of a pass may end here, for all that may follow, exactly if every
   durable published version is outlived once the pass counts as flushed.
   */
  lemma EndsExactlyLasting(before: seq<Step>, v: Volume, a: int)
    requires IsRun(Empty, before, v, Firm) && Possible(v, EndFlush(a))
    ensures AlwaysNotOlder(Apply(v, EndFlush(a))) <==> Lasting(Apply(v, EndFlush(a)))
  {
    FirmReached(before, v);
    FlushKeeps(v, EndFlush(a));
    LastingExactly(Apply(v, EndFlush(a)));
  }
}
