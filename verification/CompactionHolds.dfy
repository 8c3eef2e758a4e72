/**
 A run that loses a put for want of a hold. A pass gives up the hold on a copy it landed just before the index is
 pointed at the copy; a second pass that starts on the copy's segment in between finds the copy dead, and both
 segments go.
 */
module CompactionHolds {
  import opened Common
  import opened Volume
  import opened CompactionAnswers

  const KEY := 7
  const WRITTEN := Record(KEY, Put(5))

  /** The volume once the one record is drawn. */
  function Holding(copies: set<Copy>, durable: set<Copy>, open: set<int>, at: map<int, int>, passes: map<int, Pass>,
                   clock: int): Volume {
    Volume(map[0 := WRITTEN], 1, at.Keys, copies, durable, open, at.Keys, at, passes, clock)
  }

  const FIRST := Copy(1, 0)
  const SECOND := Copy(2, 0)

  lemma Prepend(v: Volume, step: Step, w: Volume, steps: seq<Step>, z: Volume, care: Care)
    requires Allows(care, v, step) && Apply(v, step) == w && IsRun(w, steps, z, care)
    ensures IsRun(v, [step] + steps, z, care)
  {
    assert ([step] + steps)[1..] == steps;
  }

  /** The same for a step that ends no flush. */
  lemma Before(v: Volume, step: Step, w: Volume, steps: seq<Step>, z: Volume)
    requires Enabled(v, step) && !step.EndFlush? && Apply(v, step) == w && IsRun(w, steps, z, Firm)
    ensures IsRun(v, [step] + steps, z, Firm)
  {
    Prepend(v, step, w, steps, z, Firm);
  }

  function Fresh(floor: int): Pass { Pass(floor, {}, map[], {}, NotAsked) }

  /** The first pass, its one copy landed and not yet repointed. */
  const OVER := Pass(1, {}, map[0 := 2], {0}, NotAsked)

  function Told(): Volume { Holding({FIRST}, {}, {1}, map[0 := 1], map[], 0) }

  function Written(): Volume { Holding({FIRST}, {FIRST}, {2}, map[0 := 1], map[], 0) }
  function Copied(): Volume { Holding({FIRST, SECOND}, {FIRST, SECOND}, {}, map[0 := 1], map[1 := OVER], 0) }
  function Retired(): Volume { Holding({FIRST}, {FIRST}, {}, map[0 := 1], map[1 := OVER], 1) }
  function Lost(): Volume { Holding({}, {}, {}, map[0 := 2], map[], 2) }

  /** One put lands in segment 1 and is published. */
  lemma Writes() returns (steps: seq<Step>)
    ensures IsRun(Empty, steps, Told(), Firm)
  {
    var first := Empty.(open := {1});
    var drawn := Holding({}, {}, {1}, map[], map[], 0);
    var landed := Holding({FIRST}, {}, {1}, map[], map[], 0);
    assert IsRun(Told(), [], Told(), Firm);
    Before(landed, Publish(0, 1), Told(), [], Told());
    Before(drawn, Land(0, 1), landed, [Publish(0, 1)], Told());
    steps := [Land(0, 1)] + [Publish(0, 1)];
    Before(first, Draw(WRITTEN), drawn, steps, Told());
    steps := [Draw(WRITTEN)] + steps;
    Before(Empty, Open(1), first, steps, Told());
    steps := [Open(1)] + steps;
  }

  /** The segment is sealed, and segment 2 opens. */
  lemma Seals() returns (steps: seq<Step>)
    ensures IsRun(Told(), steps, Written(), Firm)
  {
    var rolled := Holding({FIRST}, {}, {}, map[0 := 1], map[], 0);
    var synced := Holding({FIRST}, {FIRST}, {}, map[0 := 1], map[], 0);
    assert IsRun(Written(), [], Written(), Firm);
    Before(synced, Open(2), Written(), [], Written());
    Before(rolled, Sync(1), synced, [Open(2)], Written());
    steps := [Sync(1)] + [Open(2)];
    Before(Told(), Roll(1), rolled, steps, Written());
    steps := [Roll(1)] + steps;
  }

  function Started(): Volume { Written().(passes := map[1 := Fresh(1)]) }
  function Landing(): Volume { Holding({FIRST, SECOND}, {FIRST}, {2}, map[0 := 1], map[1 := OVER], 0) }
  function Second(): Volume { Copied().(passes := map[1 := OVER, 2 := Fresh(0)]) }
  function Skipped(): Volume { Copied().(passes := map[1 := OVER, 2 := Pass(0, {0}, map[], {}, NotAsked)]) }
  function Repointed(): Volume {
    Holding({FIRST}, {FIRST}, {}, map[0 := 2], map[1 := Pass(1, {0}, map[], {0}, NotAsked)], 1)
  }

  lemma CopiesLive()
    ensures Possible(Started(), CopyLive(1, 0, 2)) && Apply(Started(), CopyLive(1, 0, 2)) == Landing()
  {
    var v := Started();
    assert Newest(v.log, v.published, KEY, 0);
    assert Copy(1, 0) in v.copies;
    assert Fresh(1).(pending := Fresh(1).pending[0 := 2], copied := Fresh(1).copied + {0}) == OVER;
    assert v.copies + {Copy(2, 0)} == Landing().copies;
    assert v.passes[1 := OVER] == Landing().passes;
  }

  /** Nothing the code tests keeps a pass off the segment the copy has just landed in. */
  lemma StartsEarly()
    ensures Possible(Copied(), StartPass(2, 1, 0)) && Apply(Copied(), StartPass(2, 1, 0)) == Second()
    ensures !Enabled(Copied(), StartPass(2, 1, 0))
  {
    assert FIRST in Copied().copies && FIRST.lsn == 0;
    assert Newest(Copied().log, Copied().published, KEY, 0);
    assert AwaitedBy(Copied(), 2, 1, 0);
    assert Copied().passes[2 := Fresh(0)] == Second().passes;
  }

  lemma SkipsCopy()
    ensures Possible(Second(), SkipDead(2, 0)) && Apply(Second(), SkipDead(2, 0)) == Skipped()
  {
    var v := Second();
    assert Copy(2, 0) in v.copies;
    assert Fresh(0).(handled := Fresh(0).handled + {0}) == Pass(0, {0}, map[], {}, NotAsked);
    assert v.passes[2 := Pass(0, {0}, map[], {}, NotAsked)] == Skipped().passes;
  }

  lemma Repoints()
    ensures Possible(Retired(), Repoint(1, 0)) && Apply(Retired(), Repoint(1, 0)) == Repointed()
  {
    assert Newest(Retired().log, Retired().published, KEY, 0);
    assert OVER.(pending := OVER.pending - {0}, handled := OVER.handled + {0}) == Pass(1, {0}, map[], {0}, NotAsked);
    assert Retired().at[0 := 2] == Repointed().at;
    assert Retired().passes[1 := Pass(1, {0}, map[], {0}, NotAsked)] == Repointed().passes;
  }

  /** A pass over segment 1 copies the record into segment 2. */
  lemma Starts() returns (steps: seq<Step>)
    ensures IsRun(Written(), steps, Landing(), Firm)
  {
    assert IsRun(Landing(), [], Landing(), Firm);
    CopiesLive();
    Before(Started(), CopyLive(1, 0, 2), Landing(), [], Landing());
    Before(Written(), StartPass(1, 1, 1), Started(), [CopyLive(1, 0, 2)], Landing());
    steps := [StartPass(1, 1, 1)] + [CopyLive(1, 0, 2)];
  }

  /** The segment it copied into is sealed before the repoint. */
  lemma Copies() returns (steps: seq<Step>)
    ensures IsRun(Written(), steps, Copied(), Firm)
  {
    var rolled := Holding({FIRST, SECOND}, {FIRST}, {}, map[0 := 1], map[1 := OVER], 0);
    assert IsRun(Copied(), [], Copied(), Firm);
    Before(rolled, Sync(2), Copied(), [], Copied());
    Before(Landing(), Roll(2), rolled, [Sync(2)], Copied());
    steps := Starts();
    RunsOn(Written(), steps, Landing(), [Roll(2)] + [Sync(2)], Copied(), Firm);
    steps := steps + ([Roll(2)] + [Sync(2)]);
  }

  /** Up to here nothing is out of order. */
  lemma UpToCopied() returns (steps: seq<Step>)
    ensures IsRun(Empty, steps, Copied(), Firm)
  {
    var writes := Writes();
    var seals := Seals();
    var copies := Copies();
    RunsOn(Empty, writes, Told(), seals, Written(), Firm);
    RunsOn(Empty, writes + seals, Written(), copies, Copied(), Firm);
    steps := writes + seals + copies;
  }

  /** A pass that is through with a segment whose volume is all durable flushes and retires it. */
  lemma FlushesAndRetires(v: Volume, a: int) returns (steps: seq<Step>)
    requires Possible(v, AskFlush(a)) && v.copies == v.durable
    ensures IsRun(v, steps, v.(copies := Outside(v.copies, a), durable := Outside(v.copies, a),
      passes := v.passes - {a}, clock := v.clock + 1), Any)
  {
    var asked := Apply(v, AskFlush(a));
    var flushed := Apply(asked, EndFlush(a));
    var retired := Apply(flushed, Retire(a));
    assert flushed.passes - {a} == v.passes - {a};
    assert IsRun(retired, [], retired, Any);
    Prepend(flushed, Retire(a), retired, [], retired, Any);
    Prepend(asked, EndFlush(a), flushed, [Retire(a)], retired, Any);
    steps := [EndFlush(a)] + [Retire(a)];
    Prepend(v, AskFlush(a), asked, steps, retired, Any);
    steps := [AskFlush(a)] + steps;
  }

  /** A second pass over segment 2 finds the index still at segment 1, skips the copy and retires the segment. */
  lemma RetiresCopy() returns (steps: seq<Step>)
    ensures IsRun(Copied(), steps, Retired(), Any)
  {
    steps := FlushesAndRetires(Skipped(), 2);
    assert Outside({FIRST, SECOND}, 2) == {FIRST};
    assert Skipped().passes - {2} == Retired().passes;
    SkipsCopy();
    Prepend(Second(), SkipDead(2, 0), Skipped(), steps, Retired(), Any);
    steps := [SkipDead(2, 0)] + steps;
    StartsEarly();
    Prepend(Copied(), StartPass(2, 1, 0), Second(), steps, Retired(), Any);
    steps := [StartPass(2, 1, 0)] + steps;
  }

  /** The first pass then points the index at the copy that is gone and retires its own segment. */
  lemma RetiresOriginal() returns (steps: seq<Step>)
    ensures IsRun(Retired(), steps, Lost(), Any)
  {
    steps := FlushesAndRetires(Repointed(), 1);
    assert Outside({FIRST}, 1) == {};
    assert Repointed().passes - {1} == Lost().passes;
    Repoints();
    Prepend(Retired(), Repoint(1, 0), Repointed(), steps, Lost(), Any);
    steps := [Repoint(1, 0)] + steps;
  }

  /** A loose run can lose the newest published put: no segment holds it, and the key reads as absent. */
  lemma LooseRunLoses() returns (steps: seq<Step>)
    ensures IsRun(Empty, steps, Lost(), Any)
    ensures Newest(Lost().log, Lost().published, KEY, 0) && Lost().log[0] == WRITTEN
    ensures !Landed(Lost(), 0) && Answer(Lost().log, Lost().copies, KEY) == None
  {
    steps := UpToCopied();
    Loosen(Empty, steps, Copied(), Firm, Any);
    var copyGone := RetiresCopy();
    var bothGone := RetiresOriginal();
    RunsOn(Empty, steps, Copied(), copyGone, Retired(), Any);
    steps := steps + copyGone;
    RunsOn(Empty, steps, Retired(), bothGone, Lost(), Any);
    steps := steps + bothGone;
    NothingAnswersNone(Lost().log, Lost().copies, KEY);
  }
}
