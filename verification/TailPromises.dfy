/**
 What a tail promises, over every run of its writers, flushers and the sealer: an answer that bytes are on the
 device is true, nobody who waits is forgotten, and no two records share a byte.
 */
module TailPromises {
  import opened Tail
  import opened TailSafety

  /** A state some run of a fresh segment comes to. */
  ghost predicate Reached(s: State) {
    exists bytes, whole, header, steps :: 0 <= header < ALL && IsRun(Fresh(bytes, whole, header), steps, s, false)
  }

  lemma ReachedOk(s: State)
    requires Reached(s)
    ensures Inv(s)
  {
    var bytes, whole, header, steps :| 0 <= header < ALL && IsRun(Fresh(bytes, whole, header), steps, s, false);
    FreshOk(bytes, whole, header);
    RunKeeps(Fresh(bytes, whole, header), steps, s, false);
  }

  /**
   Main result: whoever is told their bytes are on the device has there every record that had landed when they asked.
   */
  lemma AnswersAreTrue(s: State, c: int)
    requires Reached(s) && At(s, c, Done(true))
    ensures s.callers[c].owed <= s.durable
  {
    ReachedOk(s);
  }

  lemma CallOwes(s: State, step: Step, c: int)
    requires Possible(s, step) && !IsWriters(step) && !IsLeaving(step)
    ensures step == AskSettled(c) ==> c in Call(s, step).callers && Call(s, step).callers[c].owed == s.space.landed
    ensures c in s.callers ==> c in Call(s, step).callers && Call(s, step).callers[c].owed == s.callers[c].owed
  {}

  lemma CallRises(s: State, step: Step)
    requires Possible(s, step) && !IsWriters(step) && !IsLeaving(step)
    ensures s.syncedAt <= Call(s, step).syncedAt && s.durable <= Call(s, step).durable && Call(s, step).space == s.space
  {}

  /** What is owed is what had landed when the caller asked, and stays so. */
  lemma OwedStays(s: State, step: Step, c: int)
    requires Possible(s, step)
    ensures step == AskSettled(c) ==> c in Apply(s, step).callers && Apply(s, step).callers[c].owed == s.space.landed
    ensures c in s.callers ==> c in Apply(s, step).callers && Apply(s, step).callers[c].owed == s.callers[c].owed
  {
    if !IsWriters(step) && !IsLeaving(step) { CallOwes(s, step, c); }
  }

  /** The mark of what is on the device never falls, and nothing leaves the device. */
  lemma SyncedNeverFalls(s: State, step: Step)
    requires Reached(s) && Possible(s, step)
    ensures s.syncedAt <= Apply(s, step).syncedAt && s.durable <= Apply(s, step).durable
  {
    ReachedOk(s);
    SettledWithin(s.space);
    if !IsWriters(step) && !IsLeaving(step) { CallRises(s, step); }
  }

  lemma OneTurn(s: State, c: int, d: int)
    requires Reached(s) && c in s.callers && d in s.callers && Holding(s.callers[c].pc) && Holding(s.callers[d].pc)
    ensures c == d && s.running
  {
    ReachedOk(s);
  }

  /** Nobody waits in vain: somebody is at the device, or the seal that will answer is still to come. */
  lemma NeverStranded(s: State, c: int)
    requires Reached(s) && At(s, c, Waiting) && !TurnComes(s, c)
    ensures (exists d :: d in s.callers && Holding(s.callers[d].pc)) || Possible(s, Seal(true))
  {
    ReachedOk(s);
  }

  /** With nobody holding the tail shared, all that is reserved has settled. */
  lemma AllSettled(s: State)
    requires Reached(s) && Exclusive(s.space)
    ensures s.space.settled == s.space.reserved
  {
    ReachedOk(s);
    SettledIsReserved(s.space);
  }

  /** No two records that landed, and no record and open claim, share a byte. */
  lemma RangesApart(s: State, r: Range, q: Range)
    requires Reached(s) && r in s.space.landed && r != q
    requires q in s.space.landed || exists w :: w in s.space.claims && s.space.claims[w].range == q
    ensures Apart(r, q)
  {
    ReachedOk(s);
    if w :| w in s.space.claims && s.space.claims[w].range == q { assert Apart(s.space.claims[w].range, r); }
  }

  /** Padding that a failed journal write gives back leaves the space as it was, whatever landed between. */
  lemma PadUndone(s: State, n: int)
    requires Possible(s, Pad(n))
    ensures Possible(Apply(s, Pad(n)), PadBack) && Apply(Apply(s, Pad(n)), PadBack) == s
    ensures forall w, ok, rows :: Possible(s, Land(w, ok, rows)) ==>
      Apply(Apply(Apply(s, Pad(n)), Land(w, ok, rows)), PadBack) == Apply(s, Land(w, ok, rows))
  {
    var p := Apply(s, Pad(n));
    assert p == s.(space := p.space);
  }

  /** A segment that was closed takes no claim and no record any more, whether the close came back well or not. */
  lemma {:induction false} ClosedForGood(s: State, ok: bool, steps: seq<Step>, t: State)
    requires Reached(s) && Possible(s, Close(ok)) && IsRun(Apply(s, Close(ok)), steps, t, false)
    ensures t.terminal && t.space.landed == s.space.landed
    ensures forall w, span :: !Possible(t, Claim(w, span))
  {
    TerminalStays(Apply(s, Close(ok)), steps, t);
  }

  lemma {:induction false} TerminalStays(s: State, steps: seq<Step>, t: State)
    requires s.terminal && Exclusive(s.space) && IsRun(s, steps, t, false)
    ensures t.terminal && Exclusive(t.space) && t.space.landed == s.space.landed
    decreases |steps|
  {
    if steps != [] {
      TerminalStep(s, steps[0]);
      TerminalStays(Apply(s, steps[0]), steps[1..], t);
    }
  }

  lemma TerminalStep(s: State, step: Step)
    requires s.terminal && Exclusive(s.space) && Possible(s, step)
    ensures Apply(s, step).terminal && Exclusive(Apply(s, step).space)
    ensures Apply(s, step).space.landed == s.space.landed
  {}
}
