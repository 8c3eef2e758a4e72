/**
 A run that loses a key to a flush a roll slipped by. The newer of two puts is published in a segment its tail has
 rolled off and the sealer has not synced. A pass finds the older one dead, its flush comes back without the rolled
 segment, and the pass retires the only durable version of the key.
 */
module CompactionSlips {
  import opened Common
  import opened Volume
  import opened Compaction
  import opened CompactionAnswers
  import opened CompactionLasting
  import opened CompactionFlushes
  import Orphans = CompactionOrphans

  const KEY := Orphans.KEY
  const OLDER := Copy(1, 0)
  const BOTH := Orphans.BOTH

  function TwoPuts(open: set<int>, passes: map<int, Pass>, clock: int): Volume {
    Volume(map[0 := Orphans.OLD, 1 := Orphans.NEW], 2, {0, 1}, BOTH, {OLDER}, open, {0, 1}, map[0 := 1, 1 := 2], passes,
      clock)
  }

  /** Both puts are published, each in its own segment. */
  lemma PublishesBoth() returns (steps: seq<Step>, v: Volume)
    ensures IsRun(Empty, steps, v, Firm) && v == TwoPuts({1, 2}, map[], 0).(durable := {})
  {
    var u;
    steps, u := Orphans.DrawsNew();
    var a := Apply(u, Land(1, 2));
    RunStep(Empty, steps, u, Land(1, 2), a, Firm);
    steps := steps + [Land(1, 2)];
    assert Copy(2, 1) in a.copies;
    v := Apply(a, Publish(1, 2));
    RunStep(Empty, steps, a, Publish(1, 2), v, Firm);
    steps := steps + [Publish(1, 2)];
    assert v.at == map[0 := 1, 1 := 2];
  }

  /** The older one's segment is sealed; the tail has only rolled off the newer one's. */
  lemma RollsBoth() returns (steps: seq<Step>, v: Volume)
    ensures IsRun(Empty, steps, v, Firm) && v == TwoPuts({}, map[], 0)
  {
    var u;
    steps, u := PublishesBoth();
    var a := Apply(u, Roll(1));
    RunStep(Empty, steps, u, Roll(1), a, Firm);
    steps := steps + [Roll(1)];
    var b := Apply(a, Sync(1));
    RunStep(Empty, steps, a, Sync(1), b, Firm);
    steps := steps + [Sync(1)];
    v := Apply(b, Roll(2));
    RunStep(Empty, steps, b, Roll(2), v, Firm);
    steps := steps + [Roll(2)];
    assert v.durable == {OLDER} && v.open == {};
  }

  const STARTED := Pass(1, {}, map[], {}, NotAsked)
  const SKIPPED := Pass(1, {0}, map[], {}, NotAsked)

  lemma Starts() returns (steps: seq<Step>, v: Volume)
    ensures IsRun(Empty, steps, v, Firm) && v == TwoPuts({}, map[1 := STARTED], 0)
  {
    var u;
    steps, u := RollsBoth();
    assert Copy(2, 1) in u.copies && Copy(2, 1).lsn == 1;
    v := Apply(u, StartPass(1, 2, 1));
    RunStep(Empty, steps, u, StartPass(1, 2, 1), v, Firm);
    steps := steps + [StartPass(1, 2, 1)];
  }

  lemma Skips() returns (steps: seq<Step>, v: Volume)
    ensures IsRun(Empty, steps, v, Firm) && v == TwoPuts({}, map[1 := SKIPPED], 0)
  {
    var u;
    steps, u := Starts();
    assert Copy(1, 0) in u.copies && Reaches(u.log, 1, KEY);
    v := Apply(u, SkipDead(1, 0));
    RunStep(Empty, steps, u, SkipDead(1, 0), v, Firm);
    steps := steps + [SkipDead(1, 0)];
    assert STARTED.(handled := STARTED.handled + {0}) == SKIPPED;
    assert v.passes == map[1 := SKIPPED];
  }

  lemma Asks() returns (steps: seq<Step>, v: Volume)
    ensures IsRun(Empty, steps, v, Firm) && v == TwoPuts({}, map[1 := SKIPPED.(flush := Asked(0, BOTH))], 1)
  {
    var u;
    steps, u := Skips();
    assert AllHandled(u, 1);
    v := Apply(u, AskFlush(1));
    RunStep(Empty, steps, u, AskFlush(1), v, Firm);
    steps := steps + [AskFlush(1)];
    assert v.passes == map[1 := SKIPPED.(flush := Asked(0, BOTH))];
  }

  /** The flush may end with the rolled segment not synced, and the pass retires the other. */
  lemma Slips(v: Volume) returns (w: Volume)
    requires v == TwoPuts({}, map[1 := SKIPPED.(flush := Asked(0, BOTH))], 1)
    ensures Possible(v, EndFlush(1)) && !Covered(v, 1) && Possible(Apply(v, EndFlush(1)), Retire(1))
    ensures w == Apply(Apply(v, EndFlush(1)), Retire(1)) && w.log == v.log
    ensures w.copies == {Copy(2, 1)} && w.durable == {}
  {
    assert Copy(2, 1) in v.passes[1].flush.target && Copy(2, 1) in v.copies && Copy(2, 1) !in v.durable;
    w := Apply(Apply(v, EndFlush(1)), Retire(1));
    assert w.copies == {Copy(2, 1)} && w.durable == {};
  }

  /** With it goes the durable answer: a crash leaves the key neither the older value nor the newer. */
  lemma SlipLoses() returns (steps: seq<Step>, v: Volume, w: Volume)
    ensures IsRun(Empty, steps, v, Firm) && Possible(v, EndFlush(1)) && !Covered(v, 1)
    ensures Possible(Apply(v, EndFlush(1)), Retire(1)) && w == Apply(Apply(v, EndFlush(1)), Retire(1))
    ensures Answer(v.log, v.durable, KEY) == Some(5) && Answer(w.log, w.copies, KEY) == Some(6)
    ensures var crash := Crash({}, map[], 2);
      Possible(w, crash) && Answer(Apply(w, crash).log, Apply(w, crash).copies, KEY) == None
  {
    steps, v := Asks();
    w := Slips(v);
    Orphans.TopIs(v, v.durable, 0, 1, 5);
    Orphans.TopIs(w, w.copies, 1, 2, 6);
    NothingAnswersNone(Apply(w, Crash({}, map[], 2)).log, {}, KEY);
  }
}
