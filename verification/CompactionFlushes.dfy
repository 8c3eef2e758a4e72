/**
 Where no roll slips by a flush, none ends with anything left to lose. From the moment a pass asks for its flush every
 published version its segment holds has a witness that outlasts the pass, and what was asked for is durable when
 the flush ends.
 */
module CompactionFlushes {
  import opened Volume
  import opened Compaction

  /** All that had landed when the flush was asked for, and still stands, is durable. */
  ghost predicate Covered(v: Volume, a: int)
    requires a in v.passes && v.passes[a].flush.Asked?
  {
    forall c :: c in v.passes[a].flush.target && c in v.copies ==> c in v.durable
  }

  /** A step that no roll slips by. */
  ghost predicate Clean(v: Volume, step: Step) { Enabled(v, step) && (step.EndFlush? ==> Covered(v, step.seg)) }

  ghost predicate IsClean(v: Volume, steps: seq<Step>, w: Volume)
    decreases |steps|
  {
    if steps == [] then v == w else Clean(v, steps[0]) && IsClean(Apply(v, steps[0]), steps[1..], w)
  }

  // ---- the invariant ----

  /** A copy that outlasts a pass: no pass over its segment asked for its flush before this one did. */
  ghost predicate Outlasts(v: Volume, a: int, b: int)
    requires Begun(v, a)
  {
    b != a && (Begun(v, b) ==> v.passes[b].flush.stamp > v.passes[a].flush.stamp)
  }

  ghost predicate StandsIn(v: Volume, a: int, h: int, k: Key, c: Copy)
    requires Begun(v, a)
  {
    && c in v.copies && c.lsn >= h && c.lsn in v.published && Reaches(v.log, c.lsn, k) && Outlasts(v, a, c.seg)
    && (c in v.durable || (v.passes[a].flush.Asked? && c in v.passes[a].flush.target))
  }

  ghost predicate Witnessed(v: Volume, a: int, h: int, k: Key)
    requires Begun(v, a)
  {
    || (exists c :: StandsIn(v, a, h, k, c))
    || (exists g :: g >= h && Gone(v, a, g, k))
  }

  ghost predicate FlushesOk(v: Volume) {
    forall a, h, k {:trigger Copy(a, h), Reaches(v.log, h, k)} ::
      Begun(v, a) && Copy(a, h) in v.copies && h in v.published && Reaches(v.log, h, k) ==> Witnessed(v, a, h, k)
  }

  // ---- what every step keeps ----

  /** Nothing comes to stand below a delete that was dropped. */
  lemma GoneStays(v: Volume, step: Step, x: int, m: int, k: Key)
    requires Inv(v) && Enabled(v, step) && !step.Crash? && Gone(v, x, m, k) && step != Retire(x) && step != Abandon(x)
    ensures Gone(Apply(v, step), x, m, k)
  {
    assert PassOk(v, x) && v.next !in v.log;
    PassesClosed(v);
    if step.CopyLive? || step.Carry? {
      assert PassOk(v, step.seg);
      if Reaches(v.log, step.lsn, k) { CopyPastGone(v, step.seg, step.lsn, step.dest, x, m, k); }
    }
  }

  /** Nothing is added to the segment of a pass, nor published in it. */
  lemma PassGainsNone(v: Volume, step: Step, x: int, h: int, k: Key)
    requires Inv(v) && Enabled(v, step) && !step.Crash? && x in Apply(v, step).passes && Begun(Apply(v, step), x)
    requires Copy(x, h) in Apply(v, step).copies && h in Apply(v, step).published && Reaches(Apply(v, step).log, h, k)
    ensures x in v.passes && Copy(x, h) in v.copies && h in v.published && Reaches(v.log, h, k)
    ensures Begun(v, x) || step == AskFlush(x)
  {
    assert PassOk(v, x) && v.next !in v.log;
    PassesClosed(v);
  }

  lemma StandsStays(v: Volume, step: Step, x: int, h: int, k: Key, c: Copy)
    requires Basics(v) && Clean(v, step) && !step.Crash? && Begun(v, x) && StandsIn(v, x, h, k, c)
    requires Begun(Apply(v, step), x) && step != Retire(c.seg) && v.passes[x].flush.stamp < v.clock
    ensures StandsIn(Apply(v, step), x, h, k, c)
  {
    assert v.next !in v.log;
  }

  /** A witness that a retire takes away has a witness of its own, which outlasts both. */
  lemma RetireStands(v: Volume, a: int, x: int, h: int, k: Key, c: Copy)
    requires Inv(v) && FlushesOk(v) && Possible(v, Retire(a)) && x != a && Begun(v, x) && Copy(x, h) in v.copies
    requires StandsIn(v, x, h, k, c) && c.seg == a && Reaches(v.log, h, k)
    ensures Witnessed(Apply(v, Retire(a)), x, h, k)
  {
    assert Copy(a, c.lsn) == c && Begun(v, a) && Witnessed(v, a, c.lsn, k);
    // The segment retired dropped no delete over this key, for the other pass still holds it
    assert Reaches(v.log, Copy(x, h).lsn, k);
    var d :| StandsIn(v, a, c.lsn, k, d);
    assert StandsIn(Apply(v, Retire(a)), x, h, k, d);
  }

  /** When a pass asks for its flush, every published version it holds is covered by a record that stands elsewhere. */
  lemma AskFlushWitness(v: Volume, w: Volume, a: int, h: int, k: Key)
    requires Possible(v, AskFlush(a)) && w == Apply(v, AskFlush(a)) && Begun(w, a)
    requires Inv(v) && Copy(a, h) in v.copies && h in v.published && Reaches(v.log, h, k)
    ensures Witnessed(w, a, h, k)
  {
    assert Reaches(v.log, Copy(a, h).lsn, k);
    assert Kept(v, h, k) && !Over(v, h, k);
    if c :| Covers(v, h, k, c) {
      forall x | Begun(v, x) ensures !OwedAt(v, x, c.lsn) { assert PassOk(v, x); }
      assert Copy(c.seg, c.lsn) == c;
      assert StandsIn(w, a, h, k, c);
    } else {
      var x, g :| g >= h && Gone(v, x, g, k);
      assert Gone(w, a, g, k);
    }
  }

  lemma WitnessStays(v: Volume, step: Step, x: int, h: int, k: Key)
    requires Inv(v) && Clean(v, step) && !step.Crash? && !step.Retire? && Begun(v, x) && Begun(Apply(v, step), x)
    requires Witnessed(v, x, h, k)
    ensures Witnessed(Apply(v, step), x, h, k)
  {
    if c :| StandsIn(v, x, h, k, c) {
      assert PassOk(v, x);
      StandsStays(v, step, x, h, k, c);
    } else {
      var g :| g >= h && Gone(v, x, g, k);
      GoneStays(v, step, x, g, k);
    }
  }

  lemma RetireKeepsWitness(v: Volume, a: int, x: int, h: int, k: Key)
    requires Inv(v) && FlushesOk(v) && Possible(v, Retire(a)) && x != a && Begun(v, x) && Copy(x, h) in v.copies
    requires Reaches(v.log, h, k) && Witnessed(v, x, h, k)
    ensures Witnessed(Apply(v, Retire(a)), x, h, k)
  {
    if c :| StandsIn(v, x, h, k, c) {
      if c.seg == a {
        RetireStands(v, a, x, h, k, c);
      } else {
        assert PassOk(v, x);
        StandsStays(v, Retire(a), x, h, k, c);
      }
    } else {
      var g :| g >= h && Gone(v, x, g, k);
      GoneStays(v, Retire(a), x, g, k);
    }
  }

  lemma StepWitness(v: Volume, step: Step, x: int, h: int, k: Key)
    requires Inv(v) && FlushesOk(v) && Clean(v, step) && !step.Crash? && Begun(Apply(v, step), x)
    requires Copy(x, h) in Apply(v, step).copies && h in Apply(v, step).published && Reaches(Apply(v, step).log, h, k)
    ensures Witnessed(Apply(v, step), x, h, k)
  {
    PassGainsNone(v, step, x, h, k);
    if step == AskFlush(x) {
      AskFlushWitness(v, Apply(v, step), x, h, k);
    } else {
      assert Copy(x, h) in v.copies && Witnessed(v, x, h, k);
      if step.Retire? { RetireKeepsWitness(v, step.seg, x, h, k); } else { WitnessStays(v, step, x, h, k); }
    }
  }

  lemma FlushesStay(v: Volume, step: Step)
    requires Inv(v) && FlushesOk(v) && Clean(v, step)
    ensures FlushesOk(Apply(v, step))
  {
    var w := Apply(v, step);
    if !step.Crash? {
      forall x, h, k | Begun(w, x) && Copy(x, h) in w.copies && h in w.published && Reaches(w.log, h, k)
        ensures Witnessed(w, x, h, k)
      {
        StepWitness(v, step, x, h, k);
      }
    }
  }

  // ---- a flush nothing slipped by ----

  /** A witness that outlasts a flushed pass leads to one no pass may retire, for stamps only rise. */
  lemma {:induction false} WitnessOutlives(v: Volume, a: int, h: int, k: Key, low: int)
    requires Inv(v) && FlushesOk(v) && Flushed(v, a) && Copy(a, h) in v.copies && h in v.published
    requires Reaches(v.log, h, k) && low <= h
    ensures Outlived(v, k, low)
    decreases v.clock - v.passes[a].flush.stamp
  {
    assert PassOk(v, a) && Begun(v, a) && Witnessed(v, a, h, k);
    if c :| StandsIn(v, a, h, k, c) {
      if Flushed(v, c.seg) {
        assert Copy(c.seg, c.lsn) == c && PassOk(v, c.seg) && Begun(v, c.seg);
        WitnessOutlives(v, c.seg, c.lsn, k, low);
      } else {
        assert Outlives(v, k, low, c);
      }
    } else {
      var g :| g >= h && Gone(v, a, g, k);
      GoneEnds(v, a, h, k, low, g);
    }
  }

  lemma GoneEnds(v: Volume, a: int, h: int, k: Key, low: int, g: int)
    requires Inv(v) && Flushed(v, a) && Copy(a, h) in v.copies && h in v.published && Reaches(v.log, h, k) && low <= h
    requires g >= h && Gone(v, a, g, k)
    ensures Ends(v, k, low, g)
  {
    assert PassOk(v, a) && Copy(a, h) in v.durable;
    assert HasLasting(v, a, low, k);
  }

  lemma FlushesLast(v: Volume)
    requires Inv(v) && FlushesOk(v)
    ensures Lasting(v)
  {
    forall c, k | c in v.durable && c.lsn in v.published && Reaches(v.log, c.lsn, k) ensures Outlived(v, k, c.lsn) {
      if Flushed(v, c.seg) {
        assert Copy(c.seg, c.lsn) == c;
        WitnessOutlives(v, c.seg, c.lsn, k, c.lsn);
      } else {
        assert Outlives(v, k, c.lsn, c);
      }
    }
  }

  lemma {:induction false} CleanKeeps(v: Volume, steps: seq<Step>, w: Volume)
    requires Inv(v) && FlushesOk(v) && IsClean(v, steps, w)
    ensures IsRun(v, steps, w, Firm)
    decreases |steps|
  {
    if steps != [] {
      StepKeeps(v, steps[0]);
      FlushesStay(v, steps[0]);
      FlushesLast(Apply(v, steps[0]));
      CleanKeeps(Apply(v, steps[0]), steps[1..], w);
    }
  }

  /** Main result: a run in which no roll slips by a flush ends no flush with anything left to lose. */
  lemma CleanIsFirm(steps: seq<Step>, v: Volume)
    requires IsClean(Empty, steps, v)
    ensures IsRun(Empty, steps, v, Firm)
  {
    CleanKeeps(Empty, steps, v);
  }
}
