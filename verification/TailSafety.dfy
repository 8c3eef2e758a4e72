/**
 What every step of a tail keeps: reservations share no byte, settled bytes are all but those of claims still
 open, one caller holds the turn, and what a flush is said to cover is on the device.
 */
module TailSafety {
  import opened Tail

  // ---- reservations ----

  predicate Apart(a: Range, b: Range) { End(a) <= b.base || End(b) <= a.base }

  /** Bytes of open claims. */
  ghost function Spans(m: map<int, Open>): int
    decreases |m|
  {
    if w :| w in m then m[w].range.span + Spans(m - {w}) else 0
  }

  lemma {:induction false} SpansWithout(m: map<int, Open>, w: int)
    requires w in m
    ensures Spans(m) == m[w].range.span + Spans(m - {w})
    decreases |m|
  {
    var v :| v in m && Spans(m) == m[v].range.span + Spans(m - {v});
    if v != w {
      SpansWithout(m - {v}, w);
      SpansWithout(m - {w}, v);
      assert m - {v} - {w} == m - {w} - {v};
    }
  }

  lemma SpansWith(m: map<int, Open>, w: int, o: Open)
    requires w !in m
    ensures Spans(m[w := o]) == Spans(m) + o.range.span
  {
    SpansWithout(m[w := o], w);
    assert m[w := o] - {w} == m;
  }

  lemma SpansTested(m: map<int, Open>, w: int)
    requires w in m
    ensures Spans(m[w := Open(m[w].range, true)]) == Spans(m)
  {
    SpansWithout(m, w);
    SpansWithout(m[w := Open(m[w].range, true)], w);
    assert m[w := Open(m[w].range, true)] - {w} == m - {w};
  }

  lemma {:induction false} SpansPositive(m: map<int, Open>)
    requires forall w :: w in m ==> m[w].range.span > 0
    ensures Spans(m) >= 0
    decreases |m|
  {
    if w :| w in m {
      SpansWithout(m, w);
      SpansPositive(m - {w});
    }
  }

  predicate Within(p: Space, r: Range) { 0 <= r.base && 0 < r.span && End(r) <= p.reserved }

  ghost predicate RangesOk(p: Space) {
    && (forall w {:trigger p.claims[w]} :: w in p.claims ==> Within(p, p.claims[w].range))
    && (forall r {:trigger r in p.landed} :: r in p.landed ==> Within(p, r))
  }

  ghost predicate Disjoint(p: Space) {
    && (forall r, q {:trigger r in p.landed, q in p.landed} :: r in p.landed && q in p.landed && r != q ==> Apart(r, q))
    && (forall w, v {:trigger p.claims[w], p.claims[v]} ::
      w in p.claims && v in p.claims && w != v ==> Apart(p.claims[w].range, p.claims[v].range))
    && (forall w, r {:trigger p.claims[w], r in p.landed} ::
      w in p.claims && r in p.landed ==> Apart(p.claims[w].range, r))
  }

  /** Every byte reserved is settled or in an open claim. */
  ghost predicate Balanced(p: Space) { 0 <= p.settled && p.settled + Spans(p.claims) == p.reserved < ALL }

  ghost predicate SpaceOk(p: Space) { RangesOk(p) && Disjoint(p) && Balanced(p) }

  lemma SettledIsReserved(p: Space)
    requires Balanced(p) && Exclusive(p)
    ensures p.settled == p.reserved
  {}

  /** Settled bytes never pass the reserved ones. */
  lemma SettledWithin(p: Space)
    requires RangesOk(p) && Balanced(p)
    ensures p.settled <= p.reserved
  {
    SpansPositive(p.claims);
  }

  lemma ClaimReserves(s: State, w: int, span: int)
    requires SpaceOk(s.space) && Possible(s, Claim(w, span))
    ensures SpaceOk(Write(s, Claim(w, span)))
  {
    SpansWith(s.space.claims, w, Open(Range(s.space.reserved, span), false));
  }

  lemma AcceptReserves(p: Space, q: Space, w: int)
    requires SpaceOk(p) && w in p.claims && q == p.(claims := p.claims[w := Open(p.claims[w].range, true)])
    ensures SpaceOk(q)
  {
    SpansTested(p.claims, w);
    assert forall v {:trigger q.claims[v]} :: v in q.claims ==> v in p.claims && q.claims[v].range == p.claims[v].range;
  }

  lemma RejectReserves(p: Space, q: Space, w: int)
    requires SpaceOk(p) && w in p.claims
    requires q == p.(claims := p.claims - {w}, cut := q.cut, settled := p.settled + p.claims[w].range.span)
    ensures SpaceOk(q)
  {
    SpansWithout(p.claims, w);
    assert p.claims[w].range.span > 0;
    assert forall v {:trigger q.claims[v]} :: v in q.claims ==> v in p.claims && q.claims[v] == p.claims[v];
  }

  lemma LandReserves(p: Space, q: Space, w: int)
    requires SpaceOk(p) && w in p.claims
    requires q == p.(claims := p.claims - {w}, settled := p.settled + p.claims[w].range.span, landed := q.landed,
      journal := q.journal)
    requires q.landed == p.landed || q.landed == p.landed + {p.claims[w].range}
    ensures SpaceOk(q)
  {
    SpansWithout(p.claims, w);
    assert p.claims[w].range.span > 0;
    assert forall v {:trigger q.claims[v]} :: v in q.claims ==> v in p.claims && v != w && q.claims[v] == p.claims[v];
  }

  // ---- what is on the device ----

  predicate Holding(pc: Pc) { pc.AtDevice? || pc.Flushing? }

  ghost predicate SyncedOk(s: State) {
    && s.durable <= s.space.landed
    && (s.syncedAt == ALL || s.syncedAt <= s.space.settled)
    && (s.syncedAt == ALL ==> Exclusive(s.space) && (!s.onTail || s.terminal))
    && (s.syncedAt >= s.space.settled ==> s.space.landed <= s.durable)
    && (forall r {:trigger r in s.space.landed} :: r in s.space.landed && End(r) <= s.syncedAt ==> r in s.durable)
    && (forall w {:trigger s.space.claims[w]} :: w in s.space.claims ==> s.syncedAt <= s.space.claims[w].range.base)
  }

  /** What a flush on its way has read: all that had landed when nobody held the tail. */
  ghost predicate FlushOk(p: Space, callers: map<int, Caller>, covered: int, snap: set<Range>) {
    && snap <= p.landed && covered <= p.settled
    && (covered == p.settled ==> p.landed <= snap)
    && (forall r {:trigger r in p.landed} :: r in p.landed && End(r) <= covered ==> r in snap)
    && (forall w {:trigger p.claims[w]} :: w in p.claims ==> covered <= p.claims[w].range.base)
    && (forall d {:trigger callers[d]} :: d in callers && covered >= callers[d].target ==> callers[d].owed <= snap)
  }

  ghost predicate FlushesOk(p: Space, callers: map<int, Caller>) {
    forall c {:trigger callers[c]} ::
      c in callers && callers[c].pc.Flushing? ==> FlushOk(p, callers, callers[c].pc.covered, callers[c].pc.snap)
  }

  ghost predicate OwedOk(s: State) {
    forall c {:trigger s.callers[c]} :: c in s.callers ==>
      && s.callers[c].owed <= s.space.landed && s.callers[c].target <= s.space.reserved
      && (s.syncedAt >= s.callers[c].target || s.callers[c].pc == Done(true) ==> s.callers[c].owed <= s.durable)
      && (s.callers[c].pc.Dooming? ==> s.broken)
  }

  // ---- whose turn it is ----

  ghost predicate TurnOk(running: bool, callers: map<int, Caller>) {
    && (forall c {:trigger callers[c]} :: c in callers && Holding(callers[c].pc) ==> running)
    && (forall c, d {:trigger callers[c], callers[d]} ::
          c in callers && d in callers && Holding(callers[c].pc) && Holding(callers[d].pc) ==> c == d)
    && (running ==> exists c :: c in callers && Holding(callers[c].pc))
  }

  predicate Settled(s: State) { s.broken || s.syncedAt == ALL }

  ghost predicate EndsOk(s: State) {
    && (s.terminal ==> Settled(s)) && (s.onTail <==> s.sealing.NotLeft?) && (!s.onTail ==> Exclusive(s.space))
    && (s.sealing.Parked? || s.sealing.Over? ==> Settled(s))
    && (s.retired ==> Settled(s) || s.sealing.Pending?)
  }

  ghost predicate Inv(s: State) {
    var ok := SpaceOk(s.space) && SyncedOk(s) && OwedOk(s) && FlushesOk(s.space, s.callers)
      && TurnOk(s.running, s.callers) && EndsOk(s);
    ok
  }

  // ---- writers ----

  /** A step that lands nothing tells a flush on its way of nothing it has not read. */
  lemma FlushesStay(p: Space, q: Space, callers: map<int, Caller>)
    requires FlushesOk(p, callers) && q.landed == p.landed && p.settled <= q.settled
    requires forall v {:trigger q.claims[v]} :: v in q.claims ==>
      (v in p.claims && q.claims[v].range == p.claims[v].range) || q.claims[v].range.base >= p.settled
    ensures FlushesOk(q, callers)
  {
    forall c | c in callers && callers[c].pc.Flushing?
      ensures FlushOk(q, callers, callers[c].pc.covered, callers[c].pc.snap)
    {
      assert FlushOk(p, callers, callers[c].pc.covered, callers[c].pc.snap);
    }
  }

  /** The writers' steps leave what is said to be on the device as it is. */
  lemma WriterKeeps(s: State, q: Space)
    requires Inv(s) && SpaceOk(q) && q.landed == s.space.landed && s.space.settled <= q.settled
    requires s.space.reserved <= q.reserved
    requires forall v {:trigger q.claims[v]} :: v in q.claims ==>
      (v in s.space.claims && q.claims[v].range == s.space.claims[v].range)
        || (q.claims[v].range.base >= s.space.settled && s.onTail && !s.terminal)
    ensures Inv(s.(space := q))
  {
    FlushesStay(s.space, q, s.callers);
    if !s.onTail || s.terminal { StillNone(s.space.claims, q.claims); }
  }

  lemma StillNone(m: map<int, Open>, n: map<int, Open>)
    requires forall v {:trigger n[v]} :: v in n ==> v in m && n[v].range == m[v].range
    ensures m == map[] ==> n == map[]
  {
    forall v ensures v in n ==> v in m { if v in n { assert n[v].range == m[v].range; } }
    assert m == map[] ==> n.Keys == {};
  }

  lemma ClaimKeeps(s: State, w: int, span: int)
    requires Inv(s) && Possible(s, Claim(w, span))
    ensures Inv(s.(space := Write(s, Claim(w, span))))
  {
    ClaimReserves(s, w, span);
    SettledWithin(s.space);
    WriterKeeps(s, Write(s, Claim(w, span)));
  }

  lemma TestKeeps(s: State, w: int)
    requires Inv(s) && Possible(s, Test(w))
    ensures Inv(s.(space := Write(s, Test(w))))
  {
    var q := Write(s, Test(w));
    if Fits(s.space, s.space.claims[w].range) {
      AcceptReserves(s.space, q, w);
    } else {
      RejectReserves(s.space, q, w);
      assert s.space.claims[w].range.span > 0;
    }
    WriterKeeps(s, q);
  }

  /** A record that lands lies past all a flush has read or covered. */
  lemma LandFlushes(p: Space, q: Space, callers: map<int, Caller>, w: int)
    requires SpaceOk(p) && FlushesOk(p, callers) && w in p.claims
    requires q == p.(claims := p.claims - {w}, settled := p.settled + p.claims[w].range.span, landed := q.landed,
      journal := q.journal)
    requires q.landed == p.landed || q.landed == p.landed + {p.claims[w].range}
    ensures FlushesOk(q, callers)
  {
    assert p.claims[w].range.span > 0;
    forall c | c in callers && callers[c].pc.Flushing?
      ensures FlushOk(q, callers, callers[c].pc.covered, callers[c].pc.snap)
    {
      assert FlushOk(p, callers, callers[c].pc.covered, callers[c].pc.snap);
    }
  }

  lemma LandKeeps(s: State, w: int, ok: bool, rows: int)
    requires Inv(s) && Possible(s, Land(w, ok, rows))
    ensures Inv(s.(space := Write(s, Land(w, ok, rows))))
  {
    var p, q := s.space, Write(s, Land(w, ok, rows));
    LandReserves(p, q, w);
    LandFlushes(p, q, s.callers, w);
    assert p.claims[w].range.span > 0 && s.syncedAt <= p.claims[w].range.base && s.syncedAt != ALL;
  }

  lemma PadKeeps(s: State, step: Step)
    requires Inv(s) && Possible(s, step) && (step.Pad? || step.PadBack? || step.PadDone?)
    ensures Inv(s.(space := Write(s, step)))
  {
    var p, q := s.space, Write(s, step);
    assert q == p.(journal := q.journal, pads := q.pads);
    WriterKeeps(s, q);
  }

  // ---- callers ----

  /** Somebody holds the turn still, if another caller moves. */
  lemma TurnStays(running: bool, callers: map<int, Caller>, c: int, to: Caller)
    requires TurnOk(running, callers) && !Holding(to.pc) && (c in callers ==> !Holding(callers[c].pc))
    ensures TurnOk(running, callers[c := to])
  {
    if running {
      var d :| d in callers && Holding(callers[d].pc);
      assert d in callers[c := to] && Holding(callers[c := to][d].pc);
    }
  }

  lemma AskFlushes(p: Space, callers: map<int, Caller>, c: int, to: Caller)
    requires SpaceOk(p) && FlushesOk(p, callers) && c !in callers && !to.pc.Flushing?
    requires (to.target == p.settled && to.owed == p.landed)
      || (to.owed <= p.landed && forall r :: r in to.owed ==> End(r) <= to.target)
    ensures FlushesOk(p, callers[c := to])
  {
    forall d | d in callers && callers[d].pc.Flushing?
      ensures FlushOk(p, callers[c := to], callers[d].pc.covered, callers[d].pc.snap)
    {
      assert FlushOk(p, callers, callers[d].pc.covered, callers[d].pc.snap);
    }
  }

  lemma AskKeeps(s: State, step: Step)
    requires Inv(s) && Possible(s, step) && (step.AskSettled? || step.AskRecord?)
    ensures Inv(Call(s, step))
  {
    var t := Call(s, step);
    SettledWithin(s.space);
    AskFlushes(s.space, s.callers, step.c, t.callers[step.c]);
    TurnStays(s.running, s.callers, step.c, t.callers[step.c]);
  }

  /** A caller that moves on leaves a flush on its way as it was. */
  lemma GotoFlushes(p: Space, callers: map<int, Caller>, c: int, pc: Pc)
    requires FlushesOk(p, callers) && c in callers && !pc.Flushing?
    ensures FlushesOk(p, callers[c := callers[c].(pc := pc)])
  {
    var after := callers[c := callers[c].(pc := pc)];
    forall d | d in after && after[d].pc.Flushing? ensures FlushOk(p, after, after[d].pc.covered, after[d].pc.snap) {
      assert FlushOk(p, callers, callers[d].pc.covered, callers[d].pc.snap);
    }
  }

  lemma TurnKeeps(s: State, c: int)
    requires Inv(s) && Possible(s, Turn(c))
    ensures Inv(Call(s, Turn(c)))
  {
    var t := Call(s, Turn(c));
    GotoFlushes(s.space, s.callers, c, t.callers[c].pc);
    if t.callers[c].pc.AtDevice? {
      assert Holding(t.callers[c].pc);
    } else {
      TurnStays(s.running, s.callers, c, t.callers[c]);
    }
  }

  lemma DropTurnKeeps(s: State, c: int)
    requires Inv(s) && Possible(s, DropTurn(c))
    ensures Inv(Call(s, DropTurn(c)))
  {
    GotoFlushes(s.space, s.callers, c, Done(false));
  }

  lemma SnapshotKeeps(s: State, c: int)
    requires Inv(s) && Possible(s, Snapshot(c))
    ensures Inv(Call(s, Snapshot(c)))
  {
    var t := Call(s, Snapshot(c));
    if !s.onTail || s.terminal {
      GotoFlushes(s.space, s.callers, c, Waiting);
    } else {
      SettledIsReserved(s.space);
      assert FlushOk(s.space, t.callers, s.space.settled, s.space.landed);
      assert Holding(t.callers[c].pc);
    }
  }

  lemma EndFlushKeeps(s: State, c: int, ok: bool)
    requires Inv(s) && Possible(s, EndFlush(c, ok))
    ensures Inv(Call(s, EndFlush(c, ok)))
  {
    assert FlushOk(s.space, s.callers, s.callers[c].pc.covered, s.callers[c].pc.snap);
    GotoFlushes(s.space, s.callers, c, if ok then Waiting else Dooming);
  }

  lemma DoomKeeps(s: State, c: int)
    requires Inv(s) && Possible(s, Doom(c))
    ensures Inv(Call(s, Doom(c)))
  {
    GotoFlushes(s.space, s.callers, c, Done(false));
    TurnStays(s.running, s.callers, c, s.callers[c].(pc := Done(false)));
  }

  // ---- leaving the segment ----

  lemma LeaveKeeps(s: State, step: Step)
    requires Inv(s) && Possible(s, step) && IsLeaving(step)
    ensures Inv(Leave(s, step))
  {
    if !step.Seal? { SettledIsReserved(s.space); }
  }

  // ---- every step and every run ----

  lemma CallKeeps(s: State, step: Step)
    requires Inv(s) && Possible(s, step) && !IsWriters(step) && !IsLeaving(step)
    ensures Inv(Call(s, step))
  {
    match step
    case AskSettled(_) => AskKeeps(s, step);
    case AskRecord(_, _) => AskKeeps(s, step);
    case Turn(c) => TurnKeeps(s, c);
    case DropTurn(c) => DropTurnKeeps(s, c);
    case Snapshot(c) => SnapshotKeeps(s, c);
    case EndFlush(c, ok) => EndFlushKeeps(s, c, ok);
    case Doom(c) => DoomKeeps(s, c);
  }

  lemma WriteKeeps(s: State, step: Step)
    requires Inv(s) && Possible(s, step) && IsWriters(step)
    ensures Inv(s.(space := Write(s, step)))
  {
    if step.Claim? {
      ClaimKeeps(s, step.w, step.span);
    } else if step.Test? {
      TestKeeps(s, step.w);
    } else if step.Land? {
      LandKeeps(s, step.w, step.ok, step.rows);
    } else {
      PadKeeps(s, step);
    }
  }

  lemma StepKeeps(s: State, step: Step)
    requires Inv(s) && Possible(s, step)
    ensures Inv(Apply(s, step))
  {
    if IsWriters(step) { WriteKeeps(s, step); } else if IsLeaving(step) { LeaveKeeps(s, step); }
      else { CallKeeps(s, step); }
  }

  lemma FreshOk(bytes: int, whole: bool, header: int)
    requires 0 <= header < ALL
    ensures Inv(Fresh(bytes, whole, header))
  {}

  lemma {:induction false} RunKeeps(s: State, steps: seq<Step>, t: State, prompt: bool)
    requires Inv(s) && IsRun(s, steps, t, prompt)
    ensures Inv(t)
    decreases |steps|
  {
    if steps != [] {
      StepKeeps(s, steps[0]);
      RunKeeps(Apply(s, steps[0]), steps[1..], t, prompt);
    }
  }
}
