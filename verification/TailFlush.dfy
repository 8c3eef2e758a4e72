/**
 A flush of a whole tail, over all the segments it has left and the one it is on. It waits until the sealer has nothing
 more to do, then syncs the segment the tail is on. What an Ok means for a segment the tail left depends on whether
 its seal was still to come when the flush looked at the tail.
 */
module TailFlush {
  import opened Tail
  import opened TailSafety

  /** The segments of a tail in order, and which of those it left the sealer has been handed. */
  datatype Appender = Appender(segs: seq<State>, handed: set<int>)

  datatype Move =
    | On(i: int, step: Step)
    | RollTo(bytes: int, whole: bool, header: int)
    | HandOver(i: int)

  function Last(a: Appender): int { |a.segs| - 1 }

  /** A roll puts a fresh segment in place and hands the old one over as a separate action after it. */
  predicate Can(a: Appender, x: Move) {
    a.segs != [] &&
    match x
    case On(i, step) =>
      0 <= i < |a.segs| && Possible(a.segs[i], step) && !step.Roll? && (step.Seal? ==> i in a.handed)
    case RollTo(_, _, header) => Possible(a.segs[Last(a)], Roll) && 0 <= header < ALL
    case HandOver(i) => 0 <= i < Last(a) && i !in a.handed
  }

  function Does(a: Appender, x: Move): Appender
    requires Can(a, x)
  {
    match x
    case On(i, step) => a.(segs := a.segs[i := Apply(a.segs[i], step)])
    case RollTo(bytes, whole, header) =>
      a.(segs := a.segs[Last(a) := Apply(a.segs[Last(a)], Roll)] + [Fresh(bytes, whole, header)])
    case HandOver(i) => a.(handed := a.handed + {i})
  }

  predicate IsHistory(a: Appender, xs: seq<Move>, b: Appender)
    decreases |xs|
  {
    if xs == [] then a == b else Can(a, xs[0]) && IsHistory(Does(a, xs[0]), xs[1..], b)
  }

  function Begun(bytes: int, whole: bool, header: int): Appender { Appender([Fresh(bytes, whole, header)], {}) }

  /** The sealer has finished with all it was handed, which is what a flush waits for first. */
  predicate Drained(a: Appender) {
    forall i {:trigger a.segs[i]} :: 0 <= i < |a.segs| && i in a.handed ==> !a.segs[i].sealing.Pending?
  }

  /** The seal is over or parked, and bytes of the segment are past saving, which is counted. */
  predicate PastSaving(s: State) { (s.sealing.Parked? || s.sealing.Over?) && s.syncedAt < SealEnd(s.space) }

  // ---- what every move keeps ----

  ghost predicate AllOk(a: Appender) {
    var ok :=
      && a.segs != [] && (forall i {:trigger a.segs[i]} :: 0 <= i < |a.segs| ==> Inv(a.segs[i]))
      && a.segs[Last(a)].onTail && (forall i {:trigger a.segs[i]} :: 0 <= i < Last(a) ==> !a.segs[i].onTail);
    ok
  }

  lemma StaysOn(s: State, step: Step)
    requires Possible(s, step) && !step.Roll?
    ensures Apply(s, step).onTail == s.onTail
  {}

  lemma MoveKeeps(a: Appender, x: Move)
    requires AllOk(a) && Can(a, x)
    ensures AllOk(Does(a, x))
  {
    match x
    case On(i, step) =>
      StepKeeps(a.segs[i], step);
      StaysOn(a.segs[i], step);
    case RollTo(bytes, whole, header) =>
      StepKeeps(a.segs[Last(a)], Roll);
      FreshOk(bytes, whole, header);
    case HandOver(_) =>
  }

  lemma {:induction false} HistoryKeeps(a: Appender, xs: seq<Move>, b: Appender)
    requires AllOk(a) && IsHistory(a, xs, b)
    ensures AllOk(b)
    decreases |xs|
  {
    if xs != [] {
      MoveKeeps(a, xs[0]);
      HistoryKeeps(Does(a, xs[0]), xs[1..], b);
    }
  }

  lemma ReachedOk(bytes: int, whole: bool, header: int, xs: seq<Move>, a: Appender)
    requires 0 <= header < ALL && IsHistory(Begun(bytes, whole, header), xs, a)
    ensures AllOk(a)
  {
    FreshOk(bytes, whole, header);
    HistoryKeeps(Begun(bytes, whole, header), xs, a);
  }

  // ---- a segment the tail has left ----

  /** Nothing more lands there, its end stays, and what is durable stays so; its seal, once tried, stays tried. */
  predicate Follows(s: State, t: State) {
    && !t.onTail && t.space.landed == s.space.landed && SealEnd(t.space) == SealEnd(s.space) && s.durable <= t.durable
    && (!s.sealing.Pending? ==> !t.sealing.Pending?) && s.syncedAt <= t.syncedAt
  }

  lemma LeftStays(s: State, step: Step)
    requires Inv(s) && !s.onTail && Possible(s, step)
    ensures Follows(s, Apply(s, step))
  {
    assert s.space.claims == map[];
  }

  lemma {:induction false} LeftThrough(a: Appender, xs: seq<Move>, b: Appender, i: int)
    requires AllOk(a) && IsHistory(a, xs, b) && 0 <= i < Last(a)
    ensures |b.segs| >= |a.segs| && Follows(a.segs[i], b.segs[i])
    decreases |xs|
  {
    if xs != [] {
      var x, m := xs[0], Does(a, xs[0]);
      if x.On? && x.i == i { LeftStays(a.segs[i], x.step); }
      MoveKeeps(a, x);
      LeftThrough(m, xs[1..], b, i);
    }
  }

  /** Once its seal was tried, each record the segment ends behind is durable or the segment counts as past saving. */
  lemma TriedIsTold(s: State, r: Range)
    requires Inv(s) && !s.onTail && !s.sealing.Pending? && r in s.space.landed && End(r) <= SealEnd(s.space)
    ensures r in s.durable || PastSaving(s)
  {}

  /** Just a segment the tail has left is handed over, once, and the sealer may then seal it, and not before. */
  lemma HandedIsSealed(a: Appender, i: int, ok: bool)
    requires AllOk(a) && Can(a, HandOver(i))
    ensures !a.segs[i].onTail && !Can(a, On(i, Seal(ok)))
    ensures var b := Does(a, HandOver(i));
      && !Can(b, HandOver(i)) && b.segs == a.segs
      && (Can(b, On(i, Seal(ok))) <==> a.segs[i].sealing.Pending? || a.segs[i].sealing.Parked?)
  {}

  // ---- an answer can always come ----

  predicate NoRoll(steps: seq<Step>) { forall i {:trigger steps[i]} :: 0 <= i < |steps| ==> !steps[i].Roll? }

  lemma {:induction false} RunsOn(s: State, some: seq<Step>, t: State, more: seq<Step>, z: State)
    requires IsRun(s, some, t, false) && IsRun(t, more, z, false)
    ensures IsRun(s, some + more, z, false)
    decreases |some|
  {
    if some == [] {
      assert some + more == more;
    } else {
      RunsOn(Apply(s, some[0]), some[1..], t, more, z);
      assert (some + more)[1..] == some[1..] + more;
    }
  }

  lemma RunPush(s: State, steps: seq<Step>, t: State, step: Step, z: State)
    requires IsRun(s, steps, t, false) && Possible(t, step) && Apply(t, step) == z
    ensures IsRun(s, steps + [step], z, false)
  {
    assert [step][1..] == [] && IsRun(z, [], z, false) && IsRun(t, [step], z, false);
    RunsOn(s, steps, t, [step], z);
  }

  /** A segment that can still be synced, with this caller waiting for it. */
  ghost predicate Syncable(s: State, c: int) {
    Inv(s) && s.onTail && !s.terminal && !s.broken && At(s, c, Waiting)
  }

  function Untested(p: Space): set<int> { set w | w in p.claims && !p.claims[w].tested }

  lemma ClaimEnds(s: State, w: int) returns (step: Step)
    requires w in s.space.claims
    ensures Possible(s, step) && IsWriters(step)
    ensures var p, q := s.space, Write(s, step);
      q.claims.Keys < p.claims.Keys || (q.claims.Keys == p.claims.Keys && Untested(q) < Untested(p))
  {
    var p := s.space;
    step := if p.claims[w].tested then Land(w, false, 0) else Test(w);
    assert w !in (p.claims - {w}).Keys;
    if !p.claims[w].tested && Fits(p, p.claims[w].range) { assert w in Untested(p) && w !in Untested(Write(s, step)); }
  }

  lemma NoClaims(m: map<int, Open>)
    requires forall w :: w !in m
    ensures m == map[]
  {
    assert m.Keys == {} by { forall w ensures w !in m.Keys { assert w !in m; } }
  }

  /** Every writer ends its claim. */
  lemma {:induction false} ClaimsEnd(s: State, c: int) returns (steps: seq<Step>, t: State)
    requires Syncable(s, c)
    ensures IsRun(s, steps, t, false) && NoRoll(steps) && Syncable(t, c) && Exclusive(t.space)
    decreases s.space.claims.Keys, Untested(s.space)
  {
    steps, t := [], s;
    if w :| w in s.space.claims {
      var step := ClaimEnds(s, w);
      StepKeeps(s, step);
      var u := Apply(s, step);
      steps, t := ClaimsEnd(u, c);
      steps := [step] + steps;
    } else {
      NoClaims(s.space.claims);
    }
  }

  /** Whoever holds the turn gives it back. */
  lemma TurnFrees(s: State, c: int) returns (steps: seq<Step>, t: State)
    requires Syncable(s, c) && Exclusive(s.space)
    ensures IsRun(s, steps, t, false) && NoRoll(steps) && Syncable(t, c) && Exclusive(t.space) && !t.running
  {
    steps, t := [], s;
    if s.running {
      var d :| d in s.callers && Holding(s.callers[d].pc);
      var step := if s.callers[d].pc.AtDevice? then DropTurn(d) else EndFlush(d, true);
      StepKeeps(s, step);
      t := Apply(s, step);
      steps := [step];
      assert IsRun(t, [], t, false);
    }
  }

  /** The caller takes the turn, syncs all that has settled, and is told so. */
  lemma TakesTurn(s: State, c: int) returns (steps: seq<Step>, t: State)
    requires Syncable(s, c) && Exclusive(s.space) && !s.running && s.syncedAt < s.callers[c].target
    ensures IsRun(s, steps, t, false) && NoRoll(steps) && At(t, c, Done(true))
  {
    SettledIsReserved(s.space);
    var x := Apply(s, Turn(c));
    assert At(x, c, AtDevice) && IsRun(s, [], s, false);
    RunPush(s, [], s, Turn(c), x);
    var y := Apply(x, Snapshot(c));
    RunPush(s, [] + [Turn(c)], x, Snapshot(c), y);
    var z := Apply(y, EndFlush(c, true));
    RunPush(s, [] + [Turn(c)] + [Snapshot(c)], y, EndFlush(c, true), z);
    t := Apply(z, Turn(c));
    RunPush(s, [] + [Turn(c)] + [Snapshot(c)] + [EndFlush(c, true)], z, Turn(c), t);
    steps := [] + [Turn(c)] + [Snapshot(c)] + [EndFlush(c, true)] + [Turn(c)];
  }

  lemma Answers(s: State, c: int) returns (steps: seq<Step>, t: State)
    requires Syncable(s, c)
    ensures IsRun(s, steps, t, false) && NoRoll(steps) && At(t, c, Done(true))
  {
    var u, v, more;
    steps, u := ClaimsEnd(s, c);
    more, v := TurnFrees(u, c);
    RunsOn(s, steps, u, more, v);
    steps := steps + more;
    if v.syncedAt >= v.callers[c].target {
      t := Apply(v, Turn(c));
      RunPush(s, steps, v, Turn(c), t);
      steps := steps + [Turn(c)];
    } else {
      more, t := TakesTurn(v, c);
      RunsOn(s, steps, v, more, t);
      steps := steps + more;
    }
  }

  // ---- what an Ok means ----

  /** Steps of one segment as moves of the tail. */
  lemma {:induction false} Lifts(a: Appender, i: int, steps: seq<Step>, t: State) returns (xs: seq<Move>)
    requires 0 <= i < |a.segs| && !a.segs[i].sealing.Pending? && IsRun(a.segs[i], steps, t, false) && NoRoll(steps)
    requires a.segs[i].onTail && Inv(a.segs[i])
    ensures IsHistory(a, xs, a.(segs := a.segs[i := t]))
    decreases |steps|
  {
    xs := [];
    if steps == [] {
      assert a.segs[i := t] == a.segs;
    } else {
      var x := On(i, steps[0]);
      StepKeeps(a.segs[i], steps[0]);
      StaysOn(a.segs[i], steps[0]);
      var b := Does(a, x);
      xs := Lifts(b, i, steps[1..], t);
      assert b.segs[i := t] == a.segs[i := t];
      xs := [x] + xs;
    }
  }

  /** The flush looks at the segment the tail is on. */
  function Looks(a: Appender, c: int): Appender
    requires a.segs != [] && Possible(a.segs[Last(a)], AskSettled(c))
  {
    Does(a, On(Last(a), AskSettled(c)))
  }

  /** Whenever a flush that looked here answers Ok, the record is durable or its segment counts as past saving. */
  ghost predicate OkTells(a: Appender, c: int, i: int, r: Range)
    requires 0 <= i < Last(a) && Possible(a.segs[Last(a)], AskSettled(c))
  {
    forall xs, b {:trigger IsHistory(Looks(a, c), xs, b)} ::
      IsHistory(Looks(a, c), xs, b) && |b.segs| > Last(a) && At(b.segs[Last(a)], c, Done(true)) ==>
        r in b.segs[i].durable || PastSaving(b.segs[i])
  }

  lemma Slips(a: Appender, c: int, i: int) returns (xs: seq<Move>, b: Appender)
    requires AllOk(a) && 0 <= i < Last(a) && Possible(a.segs[Last(a)], AskSettled(c))
    requires !a.segs[Last(a)].terminal && !a.segs[Last(a)].broken
    ensures IsHistory(Looks(a, c), xs, b) && |b.segs| == |a.segs| && At(b.segs[Last(a)], c, Done(true))
    ensures b.segs[i] == a.segs[i]
  {
    var n, s := Last(a), a.segs[Last(a)];
    var u := Apply(s, AskSettled(c));
    StepKeeps(s, AskSettled(c));
    var steps, t := [], u;
    if !At(u, c, Done(true)) { steps, t := Answers(u, c); }
    xs := Lifts(Looks(a, c), n, steps, t);
    b := Looks(a, c).(segs := Looks(a, c).segs[n := t]);
  }

  /**
   Main result: where the segment the tail is on can still be synced, every Ok of a flush covers a record of a segment
   the tail has left exactly if the record is durable already or that segment's seal was tried before the flush
   looked.
   */
  lemma OkExactlySealed(bytes: int, whole: bool, header: int, before: seq<Move>, a: Appender, c: int, i: int, r: Range)
    requires 0 <= header < ALL && IsHistory(Begun(bytes, whole, header), before, a)
    requires 0 <= i < Last(a) && Possible(a.segs[Last(a)], AskSettled(c))
    requires !a.segs[Last(a)].terminal && !a.segs[Last(a)].broken
    requires r in a.segs[i].space.landed && End(r) <= SealEnd(a.segs[i].space)
    ensures OkTells(a, c, i, r) <==> r in a.segs[i].durable || !a.segs[i].sealing.Pending?
  {
    ReachedOk(bytes, whole, header, before, a);
    if r !in a.segs[i].durable && a.segs[i].sealing.Pending? {
      var xs, b := Slips(a, c, i);
      assert !PastSaving(b.segs[i]);
    } else {
      MoveKeeps(a, On(Last(a), AskSettled(c)));
      forall xs, b {:trigger IsHistory(Looks(a, c), xs, b)} |
        IsHistory(Looks(a, c), xs, b) && |b.segs| > Last(a) && At(b.segs[Last(a)], c, Done(true))
        ensures r in b.segs[i].durable || PastSaving(b.segs[i])
      {
        HistoryKeeps(Looks(a, c), xs, b);
        LeftThrough(Looks(a, c), xs, b, i);
        if !a.segs[i].sealing.Pending? { TriedIsTold(b.segs[i], r); }
      }
    }
  }

  /** A flush that looks while the sealer is done with all it was handed tells of each of those segments. */
  lemma WaitedFlushTells(bytes: int, whole: bool, header: int, before: seq<Move>, a: Appender, c: int, i: int, r: Range)
    requires 0 <= header < ALL && IsHistory(Begun(bytes, whole, header), before, a) && Drained(a)
    requires 0 <= i < Last(a) && i in a.handed && Possible(a.segs[Last(a)], AskSettled(c))
    requires !a.segs[Last(a)].terminal && !a.segs[Last(a)].broken
    requires r in a.segs[i].space.landed && End(r) <= SealEnd(a.segs[i].space)
    ensures OkTells(a, c, i, r)
  {
    OkExactlySealed(bytes, whole, header, before, a, c, i, r);
  }

  /** A segment left with all up to its end synced never counts as past saving, whatever becomes of its seal. */
  lemma SyncedIsNeverPast(a: Appender, xs: seq<Move>, b: Appender, i: int)
    requires AllOk(a) && IsHistory(a, xs, b) && 0 <= i < Last(a) && a.segs[i].syncedAt >= SealEnd(a.segs[i].space)
    ensures i < |b.segs| && !PastSaving(b.segs[i])
  {
    LeftThrough(a, xs, b, i);
  }

  /** Records of the segment the flush looked at itself, as many as had landed then. */
  lemma OkCoversItsOwn(bytes: int, whole: bool, header: int, before: seq<Move>, a: Appender, i: int, c: int)
    requires 0 <= header < ALL && IsHistory(Begun(bytes, whole, header), before, a)
    requires 0 <= i < |a.segs| && At(a.segs[i], c, Done(true))
    ensures a.segs[i].callers[c].owed <= a.segs[i].durable
  {
    ReachedOk(bytes, whole, header, before, a);
  }

  // ---- a flush that a roll slips by ----

  /** One record landed, nobody holds the tail, and nothing is durable yet. */
  predicate Written(s: State, r: Range) {
    && s.onTail && !s.terminal && Exclusive(s.space) && s.durable == {} && s.sealing.NotLeft? && s.space.landed == {r}
  }

  /** A segment with room for the record behind its header. */
  predicate Roomy(bytes: int, r: Range) {
    0 <= r.base && 0 < r.span && End(r) + ALIGN <= bytes && End(r) <= MAX_SEGMENT_OFFSET
  }

  lemma Writes(bytes: int, r: Range, start: State) returns (steps: seq<Step>, s: State)
    requires Roomy(bytes, r) && start == Fresh(bytes, false, r.base)
    ensures IsRun(start, steps, s, false) && NoRoll(steps) && Written(s, r)
  {
    var d := Apply(start, Claim(1, r.span));
    assert IsRun(start, [], start, false);
    RunPush(start, [], start, Claim(1, r.span), d);
    steps := [] + [Claim(1, r.span)];
    assert d.space.claims[1] == Open(r, false);
    var e := Apply(d, Test(1));
    RunPush(start, steps, d, Test(1), e);
    steps := steps + [Test(1)];
    assert e.space.claims[1] == Open(r, true);
    s := Apply(e, Land(1, true, 0));
    RunPush(start, steps, e, Land(1, true, 0), s);
    steps := steps + [Land(1, true, 0)];
    assert s.space.claims == map[];
  }

  lemma Lands(bytes: int, r: Range) returns (xs: seq<Move>, a: Appender)
    requires Roomy(bytes, r)
    ensures IsHistory(Begun(bytes, false, r.base), xs, a) && AllOk(a)
    ensures a.handed == {} && |a.segs| == 1 && Written(a.segs[0], r)
  {
    var start := Fresh(bytes, false, r.base);
    FreshOk(bytes, false, r.base);
    var steps, s := Writes(bytes, r, start);
    xs := Lifts(Appender([start], {}), 0, steps, s);
    a := Appender([s], {});
    assert [start][0 := s] == [s];
    ReachedOk(bytes, false, r.base, xs, a);
  }

  lemma Rolls(a: Appender, next: Move, r: Range) returns (b: Appender)
    requires |a.segs| == 1 && Written(a.segs[0], r) && next.RollTo? && 0 <= next.header < ALL
    ensures Can(a, next) && b == Does(a, next) && |b.segs| == 2
    ensures b.segs[1] == Fresh(next.bytes, next.whole, next.header)
    ensures b.segs[0] == a.segs[0].(onTail := false, sealing := Pending)
  {
    b := Does(a, next);
  }

  /**
   A record lands, a flush finds nothing to wait for, the tail rolls, and the flush goes on to sync the new segment: it
   answers Ok, and the record is neither durable nor counted as past saving.
   */
  lemma RollSlipsBy(bytes: int, r: Range, c: int)
    returns (xs: seq<Move>, a: Appender, next: Move, more: seq<Move>, b: Appender)
    requires Roomy(bytes, r)
    ensures IsHistory(Begun(bytes, false, r.base), xs, a) && Drained(a) && next.RollTo? && Can(a, next)
    ensures |a.segs| == 1 && r in a.segs[0].space.landed && Possible(Does(a, next).segs[1], AskSettled(c))
    ensures IsHistory(Looks(Does(a, next), c), more, b)
    ensures |b.segs| == 2 && At(b.segs[1], c, Done(true)) && r !in b.segs[0].durable && !PastSaving(b.segs[0])
  {
    xs, a := Lands(bytes, r);
    next := RollTo(bytes, false, r.base);
    var rolled := Rolls(a, next, r);
    MoveKeeps(a, next);
    more, b := Slips(rolled, c, 0);
  }
}
