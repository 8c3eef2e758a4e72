/**
 Where a seal cuts a segment, against the records that landed there. A writer that finds its claim past the room
 moves the cut down to it. No record is ever cut as long as nothing is taken past a claim that turns out not to
 fit, which is so where claiming and looking at the room are one step, and is not so otherwise.
 */
module TailCut {
  import opened Tail
  import opened TailSafety
  import opened TailPromises

  /** What was taken ends at or before this. */
  ghost predicate EndsBy(p: Space, at: int) {
    && (forall w {:trigger p.claims[w]} :: w in p.claims && p.claims[w].tested ==> End(p.claims[w].range) <= at)
    && (forall r {:trigger r in p.landed} :: r in p.landed ==> End(r) <= at)
  }

  /** A look at the room that turns a claim away comes before anything past the claim is taken. */
  ghost predicate InOrder(s: State, step: Step) {
    Possible(s, step) && step.Test? && !Fits(s.space, s.space.claims[step.w].range) ==>
      EndsBy(s.space, s.space.claims[step.w].range.base)
  }

  ghost predicate AllInOrder(s: State, steps: seq<Step>)
    decreases |steps|
  {
    steps == [] || (Possible(s, steps[0]) && InOrder(s, steps[0]) && AllInOrder(Apply(s, steps[0]), steps[1..]))
  }

  /** No landed record reaches past the cut. */
  ghost predicate NoneCut(s: State) {
    forall r {:trigger r in s.space.landed} :: r in s.space.landed ==> End(r) <= SealEnd(s.space)
  }

  // ---- what a claim turned away leaves ----

  /** The least a claim can take. */
  function Least(p: Space): int { if p.whole then ALIGN else 1 }

  /** Nothing fits from here on any more, even if the journal gives back all it may. */
  predicate Full(p: Space, at: int) {
    at + Least(p) + ALIGN > p.bytes - (p.journal - p.pads) || at + Least(p) > MAX_SEGMENT_OFFSET
  }

  /** No claim lies in the stretch between the cut and where the segment is full. */
  ghost predicate Clear(p: Space, full: int) {
    forall w {:trigger p.claims[w]} ::
      w in p.claims ==> End(p.claims[w].range) <= p.cut || full <= p.claims[w].range.base
  }

  ghost predicate SpansOk(p: Space) {
    && 0 <= p.pads < ALIGN && (!p.whole ==> p.pads == 0)
    && forall w {:trigger p.claims[w]} :: w in p.claims ==> p.claims[w].range.span >= Least(p)
  }

  ghost predicate CutOk(p: Space, full: int) {
    SpansOk(p) && EndsBy(p, p.cut) && (p.cut == NO_CUT || (Full(p, full) && full <= p.reserved && Clear(p, full)))
  }

  lemma LeastSpan(p: Space, span: int)
    requires 0 < span && (p.whole ==> span % ALIGN == 0)
    ensures span >= Least(p)
  {}

  lemma CutClaim(s: State, w: int, span: int, full: int)
    requires CutOk(s.space, full) && Possible(s, Claim(w, span))
    ensures CutOk(Write(s, Claim(w, span)), full)
  {
    LeastSpan(s.space, span);
    var p, q := s.space, Write(s, Claim(w, span));
    assert forall v {:trigger q.claims[v]} :: v in q.claims && v != w ==> v in p.claims && q.claims[v] == p.claims[v];
  }

  /** A claim that fits comes before any that was turned away. */
  lemma CutAccept(p: Space, q: Space, w: int, full: int)
    requires CutOk(p, full) && SpaceOk(p) && w in p.claims && Fits(p, p.claims[w].range)
    requires q == p.(claims := p.claims[w := Open(p.claims[w].range, true)])
    ensures CutOk(q, full)
  {
    var r := p.claims[w].range;
    assert Within(p, r) && r.span >= Least(p);
    assert End(r) <= p.cut;
    assert forall v {:trigger q.claims[v]} :: v in q.claims ==>
      v in p.claims && q.claims[v].range == p.claims[v].range && (v != w ==> q.claims[v] == p.claims[v]);
  }

  /** Once a claim does not fit, the segment is full past it: what the journal may give back is less than any claim. */
  lemma CutReject(p: Space, q: Space, w: int, full: int) returns (next: int)
    requires CutOk(p, full) && SpaceOk(p) && w in p.claims && !Fits(p, p.claims[w].range)
    requires EndsBy(p, p.claims[w].range.base)
    requires q == p.(claims := p.claims - {w}, cut := Min(p.cut, p.claims[w].range.base), settled := q.settled)
    ensures CutOk(q, next)
  {
    var r := p.claims[w].range;
    next := if p.cut <= r.base then full else End(r);
    assert Within(p, r);
    forall v {:trigger q.claims[v]} | v in q.claims
      ensures v in p.claims && q.claims[v] == p.claims[v] && Apart(p.claims[v].range, r)
    {
      assert Apart(p.claims[w].range, p.claims[v].range);
    }
  }

  lemma CutTest(s: State, w: int, full: int) returns (next: int)
    requires CutOk(s.space, full) && SpaceOk(s.space) && Possible(s, Test(w)) && InOrder(s, Test(w))
    ensures CutOk(Write(s, Test(w)), next)
  {
    if Fits(s.space, s.space.claims[w].range) {
      CutAccept(s.space, Write(s, Test(w)), w, full);
      next := full;
    } else {
      next := CutReject(s.space, Write(s, Test(w)), w, full);
    }
  }

  lemma CutLand(p: Space, q: Space, w: int, full: int)
    requires CutOk(p, full) && w in p.claims && p.claims[w].tested && p.journal <= q.journal
    requires q == p.(claims := p.claims - {w}, settled := q.settled, landed := q.landed, journal := q.journal)
    requires q.landed == p.landed || q.landed == p.landed + {p.claims[w].range}
    ensures CutOk(q, full)
  {
    assert forall v {:trigger q.claims[v]} :: v in q.claims ==> v in p.claims && q.claims[v] == p.claims[v];
  }

  lemma CutPad(p: Space, q: Space, full: int)
    requires CutOk(p, full) && q == p.(journal := q.journal, pads := q.pads)
    requires p.journal - p.pads <= q.journal - q.pads && 0 <= q.pads < ALIGN && (!q.whole ==> q.pads == 0)
    ensures CutOk(q, full)
  {}

  lemma CutStep(s: State, step: Step, full: int) returns (next: int)
    requires CutOk(s.space, full) && SpaceOk(s.space) && Possible(s, step) && InOrder(s, step) && IsWriters(step)
    ensures CutOk(Write(s, step), next)
  {
    next := full;
    if step.Test? {
      next := CutTest(s, step.w, full);
    } else if step.Claim? {
      CutClaim(s, step.w, step.span, full);
    } else if step.Land? {
      CutLand(s.space, Write(s, step), step.w, full);
    } else {
      CutPad(s.space, Write(s, step), full);
    }
  }

  lemma SpaceStays(s: State, step: Step)
    requires Possible(s, step) && !IsWriters(step)
    ensures Apply(s, step).space == s.space
  {
    if !IsLeaving(step) { CallRises(s, step); }
  }

  lemma {:induction false} CutRun(s: State, steps: seq<Step>, t: State, full: int) returns (next: int)
    requires Inv(s) && CutOk(s.space, full) && IsRun(s, steps, t, false) && AllInOrder(s, steps)
    ensures Inv(t) && CutOk(t.space, next)
    decreases |steps|
  {
    next := full;
    if steps != [] {
      if IsWriters(steps[0]) { next := CutStep(s, steps[0], full); } else { SpaceStays(s, steps[0]); }
      StepKeeps(s, steps[0]);
      next := CutRun(Apply(s, steps[0]), steps[1..], t, next);
    }
  }

  lemma CutOkCutsNone(s: State, full: int)
    requires Inv(s) && CutOk(s.space, full)
    ensures NoneCut(s)
  {
    assert RangesOk(s.space);
    forall r {:trigger r in s.space.landed} | r in s.space.landed
      ensures End(r) <= SealEnd(s.space)
    {
      assert Within(s.space, r);
    }
  }

  /** Main result: a run in which every claim is turned away in order cuts no record that landed. */
  lemma InOrderCutsNone(bytes: int, whole: bool, header: int, steps: seq<Step>, s: State)
    requires 0 <= header < ALL && IsRun(Fresh(bytes, whole, header), steps, s, false)
    requires AllInOrder(Fresh(bytes, whole, header), steps)
    ensures NoneCut(s)
  {
    FreshOk(bytes, whole, header);
    var full := CutRun(Fresh(bytes, whole, header), steps, s, header);
    CutOkCutsNone(s, full);
  }

  // ---- in order, and no other way ----

  /** Whatever runs on from here, in order, cuts no record. */
  ghost predicate NeverCuts(s: State) {
    forall steps, t {:trigger IsRun(s, steps, t, false)} ::
      IsRun(s, steps, t, false) && AllInOrder(s, steps) ==> NoneCut(t)
  }

  /** Main result: turning a claim away is safe for all that may follow exactly if nothing was taken past the claim. */
  lemma SafeExactlyInOrder(bytes: int, whole: bool, header: int, steps: seq<Step>, s: State, w: int)
    requires 0 <= header < ALL && IsRun(Fresh(bytes, whole, header), steps, s, false)
    requires AllInOrder(Fresh(bytes, whole, header), steps)
    requires Possible(s, Test(w)) && !Fits(s.space, s.space.claims[w].range)
    ensures NeverCuts(Apply(s, Test(w))) <==> EndsBy(s.space, s.space.claims[w].range.base)
  {
    FreshOk(bytes, whole, header);
    var full := CutRun(Fresh(bytes, whole, header), steps, s, header);
    var t := Apply(s, Test(w));
    if EndsBy(s.space, s.space.claims[w].range.base) {
      var next := CutTest(s, w, full);
      StepKeeps(s, Test(w));
      forall more, z {:trigger IsRun(t, more, z, false)} | IsRun(t, more, z, false) && AllInOrder(t, more)
        ensures NoneCut(z)
      {
        var last := CutRun(t, more, z, next);
        CutOkCutsNone(z, last);
      }
    }
    if NeverCuts(t) {
      NothingTakenPast(s, w);
    }
  }

  /** A record, or a claim that may yet land, past a claim that is turned away is cut, or can be. */
  lemma NothingTakenPast(s: State, w: int)
    requires Possible(s, Test(w)) && !Fits(s.space, s.space.claims[w].range) && NeverCuts(Apply(s, Test(w)))
    ensures EndsBy(s.space, s.space.claims[w].range.base)
  {
    var t, base := Apply(s, Test(w)), s.space.claims[w].range.base;
    assert IsRun(t, [], t, false) && AllInOrder(t, []);
    assert NoneCut(t) && SealEnd(t.space) <= base;
    forall v {:trigger s.space.claims[v]} | v in s.space.claims && s.space.claims[v].tested
      ensures End(s.space.claims[v].range) <= base
    {
      assert t.space.claims[v] == s.space.claims[v];
      var land := Land(v, true, 0);
      var z := Apply(t, land);
      RunOfOne(t, land, z);
      assert AllInOrder(t, [land]);
      assert s.space.claims[v].range in z.space.landed;
    }
  }

  lemma RunOfOne(s: State, step: Step, t: State)
    requires Possible(s, step) && Apply(s, step) == t && InOrder(s, step)
    ensures IsRun(s, [step], t, false) && AllInOrder(s, [step])
  {
    assert [step][1..] == [];
    assert IsRun(t, [], t, false) && AllInOrder(t, []);
  }

  // ---- claiming and looking as one step ----

  /** At most one claim is still to be looked at, and it lies past all that was taken. */
  ghost predicate LookedAt(p: Space) {
    && (forall w {:trigger p.claims[w]} :: w in p.claims && !p.claims[w].tested ==> EndsBy(p, p.claims[w].range.base))
    && (forall v, w {:trigger p.claims[v], p.claims[w]} ::
      v in p.claims && w in p.claims && !p.claims[v].tested && !p.claims[w].tested ==> v == w)
  }

  lemma LookedAtStep(s: State, step: Step)
    requires RangesOk(s.space) && LookedAt(s.space) && Possible(s, step) && Prompt(s, step) && IsWriters(step)
    ensures LookedAt(Write(s, step))
  {
    var p, q := s.space, Write(s, step);
    if step.Claim? {
      assert EndsBy(p, p.reserved);
      assert forall v {:trigger q.claims[v]} ::
        v in q.claims && v != step.w ==> v in p.claims && q.claims[v] == p.claims[v] && p.claims[v].tested;
      assert EndsBy(q, p.reserved);
    } else {
      assert step.Test? ==> !p.claims[step.w].tested;
      assert forall v {:trigger q.claims[v]} :: v in q.claims ==> v in p.claims && q.claims[v].tested;
    }
  }

  /** Where every writer looks at the room right after its claim, every claim is turned away in order. */
  lemma {:induction false} PromptIsInOrder(s: State, steps: seq<Step>, t: State)
    requires Inv(s) && LookedAt(s.space) && IsRun(s, steps, t, true)
    ensures IsRun(s, steps, t, false) && AllInOrder(s, steps)
    decreases |steps|
  {
    if steps != [] {
      if IsWriters(steps[0]) { LookedAtStep(s, steps[0]); } else { SpaceStays(s, steps[0]); }
      StepKeeps(s, steps[0]);
      PromptIsInOrder(Apply(s, steps[0]), steps[1..], t);
    }
  }

  /** Where claiming and looking at the room are one step, a seal cuts no record that landed. */
  lemma SealCutsNoRecord(bytes: int, whole: bool, header: int, steps: seq<Step>, s: State, r: Range)
    requires 0 <= header < ALL && IsRun(Fresh(bytes, whole, header), steps, s, true) && r in s.space.landed
    ensures End(r) <= SealEnd(s.space)
  {
    FreshOk(bytes, whole, header);
    PromptIsInOrder(Fresh(bytes, whole, header), steps, s);
    InOrderCutsNone(bytes, whole, header, steps, s);
  }

  // ---- where they are two ----

  lemma Prepend(s: State, step: Step, t: State, steps: seq<Step>, z: State)
    requires Possible(s, step) && Apply(s, step) == t && IsRun(t, steps, z, false)
    ensures IsRun(s, [step] + steps, z, false)
  {
    assert ([step] + steps)[1..] == steps;
  }

  /**
   A writer that claims, and looks at the room only after a later writer has landed and its rows have taken room,
   sends the cut below the record that landed.
   */
  lemma LateLookCuts() returns (steps: seq<Step>, s: State, r: Range)
    ensures IsRun(Fresh(6200, false, 100), steps, s, false)
    ensures r in s.space.landed && End(r) > SealEnd(s.space)
  {
    var s0 := Fresh(6200, false, 100);
    var s1 := Apply(s0, Claim(1, 1000));
    var s2 := Apply(s1, Claim(2, 1000));
    var s3 := Apply(s2, Test(2));
    r := Range(1100, 1000);
    assert s3.space.claims[2] == Open(r, true);
    var s4 := Apply(s3, Land(2, true, 1088));
    assert s4.space.claims[1] == Open(Range(100, 1000), false);
    s := Apply(s4, Test(1));
    assert IsRun(s, [], s, false);
    Prepend(s4, Test(1), s, [], s);
    Prepend(s3, Land(2, true, 1088), s4, [Test(1)], s);
    steps := [Land(2, true, 1088)] + [Test(1)];
    Prepend(s2, Test(2), s3, steps, s);
    steps := [Test(2)] + steps;
    Prepend(s1, Claim(2, 1000), s2, steps, s);
    steps := [Claim(2, 1000)] + steps;
    Prepend(s0, Claim(1, 1000), s1, steps, s);
    steps := [Claim(1, 1000)] + steps;
  }
}
