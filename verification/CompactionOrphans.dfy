/**
 A run that takes an answer back. A put lands and its writer gives up before the index hears of it, as a batch does
 whose sync fails on another tail. The files answer with it until its segment is compacted, where the index finds
 it dead.
 */
module CompactionOrphans {
  import opened Common
  import opened Volume
  import opened CompactionAnswers

  const KEY := 7
  const OLD := Record(KEY, Put(5))
  const NEW := Record(KEY, Put(6))
  const BOTH := {Copy(1, 0), Copy(2, 1)}

  /** Two puts of one key, in a segment each; the second was given up. */
  function TwoPuts(done: set<int>, open: set<int>, durable: set<Copy>, passes: map<int, Pass>, clock: int): Volume {
    Volume(map[0 := OLD, 1 := NEW], 2, done, BOTH, durable, open, {0}, map[0 := 1], passes, clock)
  }

  lemma WritesOld() returns (steps: seq<Step>, v: Volume)
    ensures IsRun(Empty, steps, v, Firm)
    ensures v == Volume(map[0 := OLD], 1, {0}, {Copy(1, 0)}, {}, {1}, {0}, map[0 := 1], map[], 0)
  {
    var a := Apply(Empty, Open(1));
    RunOfOne(Empty, Open(1), a, Firm);
    var b := Apply(a, Draw(OLD));
    RunStep(Empty, [Open(1)], a, Draw(OLD), b, Firm);
    var c := Apply(b, Land(0, 1));
    RunStep(Empty, [Open(1)] + [Draw(OLD)], b, Land(0, 1), c, Firm);
    v := Apply(c, Publish(0, 1));
    assert Copy(1, 0) in c.copies;
    RunStep(Empty, [Open(1)] + [Draw(OLD)] + [Land(0, 1)], c, Publish(0, 1), v, Firm);
    steps := [Open(1)] + [Draw(OLD)] + [Land(0, 1)] + [Publish(0, 1)];
  }

  lemma DrawsNew() returns (steps: seq<Step>, v: Volume)
    ensures IsRun(Empty, steps, v, Firm)
    ensures v == TwoPuts({0}, {1, 2}, {}, map[], 0).(copies := {Copy(1, 0)})
  {
    var u;
    steps, u := WritesOld();
    var a := Apply(u, Open(2));
    RunStep(Empty, steps, u, Open(2), a, Firm);
    steps := steps + [Open(2)];
    v := Apply(a, Draw(NEW));
    RunStep(Empty, steps, a, Draw(NEW), v, Firm);
    steps := steps + [Draw(NEW)];
  }

  lemma GivesUpNew() returns (steps: seq<Step>, v: Volume)
    ensures IsRun(Empty, steps, v, Firm) && v == TwoPuts({0, 1}, {1, 2}, {}, map[], 0)
  {
    var u;
    steps, u := DrawsNew();
    var a := Apply(u, Land(1, 2));
    RunStep(Empty, steps, u, Land(1, 2), a, Firm);
    steps := steps + [Land(1, 2)];
    v := Apply(a, GiveUp(1));
    RunStep(Empty, steps, a, GiveUp(1), v, Firm);
    steps := steps + [GiveUp(1)];
  }

  lemma SealsBoth() returns (steps: seq<Step>, v: Volume)
    ensures IsRun(Empty, steps, v, Firm) && v == TwoPuts({0, 1}, {1}, BOTH, map[], 0)
  {
    var u;
    steps, u := GivesUpNew();
    var a := Apply(u, Roll(2));
    RunStep(Empty, steps, u, Roll(2), a, Firm);
    steps := steps + [Roll(2)];
    var b := Apply(a, Sync(1));
    RunStep(Empty, steps, a, Sync(1), b, Firm);
    steps := steps + [Sync(1)];
    v := Apply(b, Sync(2));
    RunStep(Empty, steps, b, Sync(2), v, Firm);
    steps := steps + [Sync(2)];
    assert v.durable == BOTH && v.open == {1};
  }

  const STARTED := Pass(0, {}, map[], {}, NotAsked)
  const SKIPPED := Pass(0, {1}, map[], {}, NotAsked)

  lemma Starts() returns (steps: seq<Step>, v: Volume)
    ensures IsRun(Empty, steps, v, Firm) && v == TwoPuts({0, 1}, {1}, BOTH, map[2 := STARTED], 0)
  {
    var u;
    steps, u := SealsBoth();
    assert Copy(1, 0) in u.copies && Copy(1, 0).lsn == 0;
    v := Apply(u, StartPass(2, 2, 0));
    RunStep(Empty, steps, u, StartPass(2, 2, 0), v, Firm);
    steps := steps + [StartPass(2, 2, 0)];
  }

  /** The pass over segment 2 finds its one record dead. */
  lemma Skips() returns (steps: seq<Step>, v: Volume)
    ensures IsRun(Empty, steps, v, Firm) && v == TwoPuts({0, 1}, {1}, BOTH, map[2 := SKIPPED], 0)
  {
    var u;
    steps, u := Starts();
    assert Copy(2, 1) in u.copies;
    v := Apply(u, SkipDead(2, 1));
    RunStep(Empty, steps, u, SkipDead(2, 1), v, Firm);
    steps := steps + [SkipDead(2, 1)];
    assert STARTED.(handled := STARTED.handled + {1}) == SKIPPED;
    assert v.passes == map[2 := SKIPPED];
  }

  /** The one published record is durable in a segment no pass is over. */
  lemma OldLasts(v: Volume)
    requires v.durable == BOTH && v.published == {0} && 1 !in v.passes
    ensures Lasting(v)
  {
    forall c, k | c in v.durable && c.lsn in v.published && Reaches(v.log, c.lsn, k) ensures Outlived(v, k, c.lsn) {
      assert Outlives(v, k, c.lsn, c);
    }
  }

  lemma Flushes() returns (steps: seq<Step>, v: Volume)
    ensures IsRun(Empty, steps, v, Firm) && v == TwoPuts({0, 1}, {1}, BOTH, map[2 := SKIPPED.(flush := Done(0))], 1)
  {
    var u;
    steps, u := Skips();
    assert AllHandled(u, 2);
    var a := Apply(u, AskFlush(2));
    RunStep(Empty, steps, u, AskFlush(2), a, Firm);
    steps := steps + [AskFlush(2)];
    v := Apply(a, EndFlush(2));
    OldLasts(v);
    RunPush(Empty, steps, a, EndFlush(2), v, Firm);
    steps := steps + [EndFlush(2)];
    assert v.passes == map[2 := SKIPPED.(flush := Done(0))];
  }

  lemma TopIs(v: Volume, copies: set<Copy>, m: int, b: int, value: int)
    requires v.log == map[0 := OLD, 1 := NEW] && 0 <= m <= 1 && v.log[m].op == Put(value) && Copy(b, m) in copies
    requires forall c :: c in copies ==> c.lsn <= m
    ensures IsTop(v.log, copies, KEY, m) && Answer(v.log, copies, KEY) == Some(value)
  {
    assert IsTop(v.log, copies, KEY, m);
    AnswerOfTop(v.log, copies, KEY, m);
  }

  /** Main result: the retire takes the key's answer, landed and durable, from the newer value back to the older. */
  lemma OrphanTakenBack() returns (steps: seq<Step>, v: Volume)
    ensures IsRun(Empty, steps, v, Firm) && Enabled(v, Retire(2)) && Orphan(v, v.copies, 2, KEY, 1)
    ensures Answer(v.log, v.copies, KEY) == Answer(v.log, v.durable, KEY) == Some(6)
    ensures var w := Apply(v, Retire(2)); Answer(w.log, w.copies, KEY) == Answer(w.log, w.durable, KEY) == Some(5)
  {
    steps, v := Flushes();
    TopIs(v, v.copies, 1, 2, 6);
    TopIs(v, v.durable, 1, 2, 6);
    var w := Apply(v, Retire(2));
    assert w.copies == {Copy(1, 0)} && w.durable == {Copy(1, 0)};
    TopIs(w, w.copies, 0, 1, 5);
    TopIs(w, w.durable, 0, 1, 5);
  }
}
