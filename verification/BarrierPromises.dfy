/**
 What the barrier promises, in every state any run of its threads comes to: batches exclude all others,
 places are served in the order they were handed out, a whole-set read that is taken saw no batch move,
 joiners move between their leader's two marks, and somebody can always go on.
 */
module BarrierPromises {
  import opened Barrier
  import opened BarrierSafety

  /** A batch inside excludes every other batch and every read. */
  lemma Exclusion(s: State, t: int, u: int)
    requires Reached(s) && t in s.threads && u in s.threads && t != u && Holds(s.threads[t].pc)
    ensures !Holds(s.threads[u].pc) && !s.threads[u].pc.Reading?
  {
    ReachedOk(s);
    assert u !in s.inside;
  }

  /** The places that entered so far, followed by those that wait, are all that were handed out, in order. */
  lemma ServedInOrder(s: State)
    requires Reached(s)
    ensures s.nextPlace == |s.entered| + |s.waiting|
    ensures forall i :: 0 <= i < |s.entered| ==> s.entered[i] == i
    ensures forall i :: 0 <= i < |s.waiting| ==> s.waiting[i].place == |s.entered| + i
  {
    ReachedOk(s);
  }

  /** A front waiter that may enter is awake or has a token to wake by. */
  lemma NoLostWakeup(s: State)
    requires Reached(s) && s.waiting != [] && MayEnter(s, s.waiting[0].place)
    ensures s.waiting[0].thread in s.threads
    ensures s.threads[s.waiting[0].thread].pc.Queued? || Enabled(s, s.waiting[0].thread, Wake)
  {
    ReachedOk(s);
  }

  /**
   A whole-set read is taken only if no batch moved the index while it was filled, and none was midway
   when the fill began: whether it was filled outside the queue or inside.
   */
  lemma TakenReadsAreWhole(s: State, t: int)
    requires Reached(s) && t in s.threads
    requires (s.threads[t].pc.Filling? && s.started == s.threads[t].pc.quiet) || s.threads[t].pc.Reading?
    ensures s.threads[t].pc.seen == s.version && s.threads[t].pc.clean
    ensures forall u :: u in s.threads ==> !s.threads[u].pc.Leading? && !s.threads[u].pc.Following?
  {
    ReachedOk(s);
    assert ReadOk(s, t);
    assert s.threads[t].pc.Reading? ==> t in s.inside;
    NoMovers(s);
  }

  /** Every joiner's moves fall between its own leader's started and finished marks. */
  lemma JoinersMoveUnderTheirLeader(s: State, t: int)
    requires Reached(s) && t in s.threads && s.threads[t].pc.Following?
    ensures s.publishing && s.holder in s.threads && Leads(s.threads[s.holder].pc, s.threads[t].pc.id)
    ensures s.started == s.finished + 1
  {
    ReachedOk(s);
    FollowersLed(s);
  }

  /** The index moves only while a batch is counted as started and not as finished. */
  lemma MovesAreCounted(s: State, t: int)
    requires Reached(s) && Enabled(s, t, Move)
    ensures s.publishing && s.started == s.finished + 1
  {
    ReachedOk(s);
    FollowersLed(s);
  }

  // ---- somebody can always go on ----

  /** A thread that is asleep: only another thread, or a spurious wakeup, lets it go on. */
  predicate Asleep(s: State, t: int)
    requires t in s.threads
  {
    (s.threads[t].pc.Parking? && !s.threads[t].token) || s.threads[t].pc.JoinParked? || s.threads[t].pc.DrainParked?
  }

  /** The step a thread takes next, if it is not asleep. */
  function Next(s: State, t: int): Step
    requires t in s.threads
  {
    match s.threads[t].pc
    case Idle => Read
    case Sampled(_) => Look
    case Filling(_, _, _) => Accept
    case Arriving(_, _) => Arrive
    case Queued(_, _, _) => Check
    case Parking(_, _, _) => Wake
    case Reading(_, _) => EndRead
    case Entered(_) => Start
    case Opening(_) => OpenGroup
    case Notifying(_) => NotifyGroup
    case Leading(_, _) => EndMoves
    case Draining(_) => Drain
    case DrainParked(_) => Spurious
    case Finishing => Finish
    case Leaving => Leave
    case Joining(_) => JoinLook
    case JoinParked(_) => Spurious
    case Following(_, _) => EndFollow
  }

  /** A thread that is not asleep can take its next step. */
  lemma AwakeGoesOn(s: State, t: int)
    requires Inv(s) && t in s.threads && !Asleep(s, t)
    ensures Enabled(s, t, Next(s, t)) && !Next(s, t).Spurious?
  {
    var pc := s.threads[t].pc;
    if pc.Opening? || pc.Draining? {
      assert Leads(pc, pc.id);
    } else if pc.Joining? || pc.Following? {
      assert Joins(pc, pc.id);
    }
  }

  lemma SomeIn(s: set<int>) returns (x: int)
    requires |s| > 0
    ensures x in s
  {
    if forall x :: x !in s {
      assert false;
    }
    x :| x in s;
  }

  /** A leader that sleeps until its joiners are done has one that is awake. */
  lemma DrainedByTheAwake(s: State, t: int) returns (u: int)
    requires Inv(s) && t in s.threads && s.threads[t].pc.DrainParked?
    ensures u in s.threads && !s.threads[u].pc.Idle? && !Asleep(s, u)
  {
    var g := s.threads[t].pc.id;
    assert Leads(s.threads[t].pc, g);
    assert GroupOk(s.threads, s.groups, s.nextGroup, g);
    u := SomeIn(s.groups[g].joiners);
    assert Joins(s.threads[u].pc, g);
    assert JoinerOk(s.threads, s.groups, u, g);
  }

  /** A joiner that sleeps until its group opens has a leader on its way in. */
  lemma SleepingJoinerLed(s: State, t: int) returns (l: int)
    requires Inv(s) && t in s.threads && s.threads[t].pc.JoinParked?
    ensures l in s.threads && (s.threads[l].pc.Arriving? || InQueue(s.threads[l].pc) || Holds(s.threads[l].pc))
  {
    var g := s.threads[t].pc.id;
    assert Joins(s.threads[t].pc, g);
    assert JoinerOk(s.threads, s.groups, t, g);
    l := s.groups[g].leader;
  }

  /** With nobody inside, the front of the queue is not asleep. */
  lemma FrontAwake(s: State, t: int)
    requires Inv(s) && t in s.threads && InQueue(s.threads[t].pc)
    requires forall u :: u in s.threads ==> !s.threads[u].pc.Reading? && !Holds(s.threads[u].pc)
    ensures s.waiting != [] && s.waiting[0].thread in s.threads
    ensures InQueue(s.threads[s.waiting[0].thread].pc) && !Asleep(s, s.waiting[0].thread)
  {
    assert Stands(s, t);
    forall u ensures u !in s.inside {}
    assert s.inside == {};
    assert MayEnter(s, s.waiting[0].place);
  }

  /** Somebody busy is awake. */
  lemma SomeoneAwake(s: State, t: int) returns (u: int)
    requires Inv(s) && t in s.threads && !s.threads[t].pc.Idle?
    ensures u in s.threads && !s.threads[u].pc.Idle? && !Asleep(s, u)
  {
    if v :| v in s.threads && s.threads[v].pc.DrainParked? {
      u := DrainedByTheAwake(s, v);
    } else if v :| v in s.threads && (s.threads[v].pc.Reading? || Holds(s.threads[v].pc)) {
      u := v;
    } else {
      u := t;
      if s.threads[t].pc.JoinParked? { u := SleepingJoinerLed(s, t); }
      if s.threads[u].pc.Parking? {
        FrontAwake(s, u);
        u := s.waiting[0].thread;
      }
    }
  }

  /** Main result: while any thread is busy, some thread can take a step that is not a spurious wakeup. */
  lemma NoDeadlock(s: State, t: int) returns (u: int, step: Step)
    requires Reached(s) && t in s.threads && !s.threads[t].pc.Idle?
    ensures Enabled(s, u, step) && !step.Spurious? && !s.threads[u].pc.Idle?
  {
    ReachedOk(s);
    u := SomeoneAwake(s, t);
    AwakeGoesOn(s, u);
    step := Next(s, u);
  }
}
