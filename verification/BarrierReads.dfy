/**
 Which whole-set reads are taken, over whole runs: one filled outside the queue exactly if no batch starts between its
 first look at the counts and its last, and then no batch moves the index while it is filled; one filled inside always,
 with no move while it is there. And who may go in: the front of the queue, a reader beside other readers, a batch
 alone.
 */
module BarrierReads {
  import opened Common
  import opened Barrier
  import opened BarrierSafety
  import opened BarrierPromises

  // ---- runs of the others ----

  type Run = seq<(int, Step)>

  predicate NotBy(run: Run, t: int) { forall i {:trigger run[i]} :: 0 <= i < |run| ==> run[i].0 != t }

  /** How many steps of a run are of a kind. */
  function Count(run: Run, step: Step): (n: nat)
    decreases |run|
  {
    if run == [] then 0 else (if run[0].1 == step then 1 else 0) + Count(run[1..], step)
  }

  predicate Reads(pc: Pc) { pc.Sampled? || pc.Filling? || pc.Reading? }

  /** Where a thread stands. */
  predicate StandsAt(threads: map<int, Thread>, t: int, pc: Pc) { t in threads && threads[t].pc == pc }

  lemma EnterKeepsOthers(s: State, u: int, want: Want, group: Option<int>, t: int, pc: Pc)
    requires u in s.threads && s.waiting != [] && u != t && StandsAt(s.threads, t, pc)
    ensures StandsAt(Enter(s, u, want, group).threads, t, pc)
  {}

  predicate ByQueue(step: Step) { step.Arrive? || step.Check? || step.EndRead? || step.Leave? }

  lemma QueueKeepsOthers(s: State, u: int, step: Step, t: int, pc: Pc)
    requires Enabled(s, u, step) && ByQueue(step) && u != t && StandsAt(s.threads, t, pc)
    ensures StandsAt(Apply(s, u, step).threads, t, pc)
  {
    if step.Arrive? {
      var at := s.threads[u].pc;
      var q := s.(waiting := s.waiting + [Waiter(s.nextPlace, at.want, u)], nextPlace := s.nextPlace + 1);
      EnterKeepsOthers(q, u, at.want, at.group, t, pc);
    }
  }

  /** A step of another thread leaves a reader where it is. */
  lemma OtherKeeps(s: State, u: int, step: Step, t: int)
    requires Enabled(s, u, step) && u != t && t in s.threads && Reads(s.threads[t].pc)
    ensures t in Apply(s, u, step).threads && Apply(s, u, step).threads[t].pc == s.threads[t].pc
  {
    if ByQueue(step) { QueueKeepsOthers(s, u, step, t, s.threads[t].pc); }
  }

  lemma StepCounts(s: State, u: int, step: Step)
    requires Enabled(s, u, step)
    ensures Apply(s, u, step).started == s.started + if step.Start? then 1 else 0
    ensures Apply(s, u, step).version == s.version + if step.Move? then 1 else 0
  {}

  lemma {:induction false} RunCounts(s: State, run: Run, w: State, t: int)
    requires IsRun(s, run, w) && NotBy(run, t) && t in s.threads && Reads(s.threads[t].pc)
    ensures t in w.threads && w.threads[t].pc == s.threads[t].pc
    ensures w.started == s.started + Count(run, Start) && w.version == s.version + Count(run, Move)
    decreases |run|
  {
    if run != [] {
      var u, step := run[0].0, run[0].1;
      OtherKeeps(s, u, step, t);
      StepCounts(s, u, step);
      RunCounts(Apply(s, u, step), run[1..], w, t);
    }
  }

  lemma {:induction false} RunsOn(s: State, run: Run, w: State, more: Run, z: State)
    requires IsRun(s, run, w) && IsRun(w, more, z)
    ensures IsRun(s, run + more, z)
    decreases |run|
  {
    if run == [] {
      assert run + more == more;
    } else {
      RunsOn(Apply(s, run[0].0, run[0].1), run[1..], w, more, z);
      assert (run + more)[1..] == run[1..] + more;
    }
  }

  lemma ReachedOn(s: State, run: Run, w: State)
    requires Reached(s) && IsRun(s, run, w)
    ensures Reached(w)
  {
    var threads: set<int>, before :| IsRun(Init(threads), before, s);
    RunsOn(Init(threads), before, s, run, w);
  }

  lemma ReachedStep(s: State, t: int, step: Step)
    requires Reached(s) && Enabled(s, t, step)
    ensures Reached(Apply(s, t, step))
  {
    var w := Apply(s, t, step);
    assert [(t, step)][1..] == [] && IsRun(w, [], w);
    ReachedOn(s, [(t, step)], w);
  }

  // ---- reads outside the queue ----

  /** A fill is taken exactly if the count of started batches is what it was; else the read joins the queue. */
  lemma AcceptTakes(s: State, t: int)
    requires Reached(s) && Enabled(s, t, Accept)
    ensures var w := Apply(s, t, Accept);
      && (w.threads[t].pc.Idle? <==> s.started == s.threads[t].pc.quiet)
      && (w.threads[t].pc.Idle? ==> s.threads[t].pc.seen == s.version && s.threads[t].pc.clean && NoneMidway(s))
      && (!w.threads[t].pc.Idle? ==> w.threads[t].pc == Arriving(Shared, None))
  {
    if s.started == s.threads[t].pc.quiet { TakenReadsAreWhole(s, t); }
  }

  /** A read inside ends with what it filled, and no batch moved meanwhile. */
  lemma EndReadTakes(s: State, t: int)
    requires Reached(s) && Enabled(s, t, EndRead)
    ensures Apply(s, t, EndRead).threads[t].pc.Idle?
    ensures s.threads[t].pc.seen == s.version && s.threads[t].pc.clean && NoneMidway(s)
  {
    TakenReadsAreWhole(s, t);
  }

  /** From the first look at the counts to the second. */
  lemma FirstHalf(s: State, t: int, first: Run, u: State)
    requires Reached(s) && Enabled(s, t, ReadAll) && NotBy(first, t) && IsRun(Apply(s, t, ReadAll), first, u)
    ensures Reached(u) && t in u.threads && u.threads[t].pc == Sampled(s.started)
    ensures u.started == s.started + Count(first, Start)
  {
    ReachedStep(s, t, ReadAll);
    ReachedOn(Apply(s, t, ReadAll), first, u);
    RunCounts(Apply(s, t, ReadAll), first, u, t);
  }

  /** From there to the last. */
  lemma SecondHalf(u: State, t: int, quiet: int, second: Run, w: State)
    requires Reached(u) && t in u.threads && u.threads[t].pc == Sampled(quiet) && NotBy(second, t)
    requires Apply(u, t, Look).threads[t].pc.Filling? && IsRun(Apply(u, t, Look), second, w)
    ensures Reached(w) && t in w.threads && w.threads[t].pc == Filling(quiet, u.version, NoneMidway(u))
    ensures w.started == u.started + Count(second, Start)
  {
    ReachedStep(u, t, Look);
    ReachedOn(Apply(u, t, Look), second, w);
    RunCounts(Apply(u, t, Look), second, w, t);
  }

  /**
   Main result: a read samples the count, other threads run, it looks and fills, others run, and it looks again. It is
   taken exactly if no batch started in all that time. Then the index is at the same version at both ends of the
   fill, with no batch midway at either.
   */
  lemma TakenExactlyIfNoneStarted(s: State, t: int, first: Run, u: State, second: Run, w: State)
    requires Reached(s) && Enabled(s, t, ReadAll) && NotBy(first, t) && NotBy(second, t)
    requires IsRun(Apply(s, t, ReadAll), first, u) && Enabled(u, t, Look) && Apply(u, t, Look).threads[t].pc.Filling?
    requires IsRun(Apply(u, t, Look), second, w)
    ensures Enabled(w, t, Accept)
    ensures Apply(w, t, Accept).threads[t].pc.Idle? <==> Count(first, Start) + Count(second, Start) == 0
    ensures Apply(w, t, Accept).threads[t].pc.Idle? ==> u.version == w.version && NoneMidway(u) && NoneMidway(w)
  {
    FirstHalf(s, t, first, u);
    SecondHalf(u, t, s.started, second, w);
    AcceptTakes(w, t);
  }

  /** With no batch under way a read that nobody disturbs is taken, and leaves everything as it was. */
  lemma QuietReadIsTaken(s: State, t: int)
    requires Reached(s) && Enabled(s, t, ReadAll) && !s.publishing
    ensures Enabled(Apply(s, t, ReadAll), t, Look)
    ensures Enabled(Apply(Apply(s, t, ReadAll), t, Look), t, Accept)
    ensures Apply(Apply(Apply(s, t, ReadAll), t, Look), t, Accept) == s
  {
    ReachedOk(s);
    var w := Apply(Apply(Apply(s, t, ReadAll), t, Look), t, Accept);
    assert w.threads == s.threads;
  }

  /** While a batch is under way no fill starts outside the queue. */
  lemma NoFillUnderBatch(s: State, t: int)
    requires Reached(s) && Enabled(s, t, ReadAll) && s.publishing
    requires s.holder in s.threads && Counted(s.threads[s.holder].pc)
    ensures Enabled(Apply(s, t, ReadAll), t, Look)
    ensures Apply(Apply(s, t, ReadAll), t, Look).threads[t].pc == Arriving(Shared, None)
  {
    ReachedOk(s);
  }

  /** Main result: while a read is inside, whatever the others do, the index does not move and no batch starts. */
  lemma InsideNothingMoves(s: State, t: int, run: Run, w: State)
    requires Reached(s) && t in s.threads && s.threads[t].pc.Reading? && NotBy(run, t) && IsRun(s, run, w)
    ensures w.version == s.version && Count(run, Move) == 0 && NoneMidway(s) && NoneMidway(w)
  {
    ReachedOn(s, run, w);
    RunCounts(s, run, w, t);
    TakenReadsAreWhole(s, t);
    TakenReadsAreWhole(w, t);
  }

  // ---- who may go in ----

  /** The front may enter exactly if no batch is inside, and, for a batch, no reader either; nobody else may. */
  lemma FrontEntersExactly(s: State, place: int)
    requires Reached(s) && s.waiting != []
    ensures MayEnter(s, place) <==>
      && place == s.waiting[0].place && (forall u :: u in s.threads ==> !Holds(s.threads[u].pc))
      && (s.waiting[0].want.Exclusive? ==> forall u :: u in s.threads ==> !s.threads[u].pc.Reading?)
  {
    ReachedOk(s);
    if s.readers == 0 {
      assert s.inside == {};
    } else {
      var u := SomeIn(s.inside);
    }
  }

  /** Whoever looks and may enter goes in: a reader beside those inside, a batch as the only one. */
  lemma CheckEnters(s: State, t: int)
    requires Reached(s) && Enabled(s, t, Check) && MayEnter(s, s.threads[t].pc.place)
    ensures var w := Apply(s, t, Check);
      if s.threads[t].pc.want.Shared? then w.threads[t].pc.Reading? && w.readers == s.readers + 1
      else w.threads[t].pc.Entered? && w.publishing
  {
    ReachedOk(s);
  }

  /** Whoever wakes by a token and may not enter is asleep again once it has looked. */
  lemma WakesOnce(s: State, t: int)
    requires Reached(s) && Enabled(s, t, Wake) && !MayEnter(s, s.threads[t].pc.place)
    ensures Enabled(Apply(s, t, Wake), t, Check)
    ensures var w := Apply(Apply(s, t, Wake), t, Check); t in w.threads && Asleep(w, t)
  {}

  // ---- every kind of step has its place ----

  /** An idle thread may ask for any of the four, and whoever leads or follows may move the index. */
  lemma MayStart(s: State, t: int)
    requires Reached(s) && t in s.threads
    ensures s.threads[t].pc.Idle? ==>
      Enabled(s, t, ReadAll) && Enabled(s, t, Read) && Enabled(s, t, Publish) && Enabled(s, t, PublishGrouped)
    ensures s.threads[t].pc.Leading? || s.threads[t].pc.Following? ==>
      Enabled(s, t, Move) && Apply(s, t, Move).version == s.version + 1
  {
    ReachedOk(s);
    if s.gathering.Some? { assert Gathers(s.threads[s.groups[s.gathering.value].leader].pc, s.gathering.value); }
  }
}
