/**
 Punching dead records out of a segment while writers, passes and crashes go on. A punch asks the index of each put
 whether it is live where it lies, flushes every tail, and then frees the blocks of those that were not. A copy in
 a hole is still listed by its segment's footer, but its bytes are gone.
 */
module Holes {
  import opened Volume
  import opened Compaction
  import opened CompactionLasting
  import opened CompactionAwaited

  // ---- the volume and its holes ----

  /** How far a punch has come; what it flushes is all that had landed when it asked. */
  datatype Stage = Looking | Flushing(target: set<Copy>) | Freeing

  /** A punch of one segment, with the puts it found dead. */
  datatype Punch = Punch(dead: set<int>, stage: Stage)

  datatype Disk = Disk(v: Volume, holed: set<Copy>, punches: map<int, Punch>)

  const Start := Disk(Empty, {}, map[])

  datatype Action =
    | Move(step: Step)
    | StartPunch(seg: int)
    | Look(seg: int, lsn: int)
    | Ask(seg: int)
    | EndAsk(seg: int)
    | Release(seg: int, lsn: int)
    | EndPunch(seg: int)

  /** Sealed and synced, with no write to it in flight. */
  ghost predicate Quiet(v: Volume, b: int) {
    b !in v.open && forall l :: Copy(b, l) in v.copies ==> l in v.done && Copy(b, l) in v.durable
  }

  predicate At(d: Disk, b: int, stage: Stage) { b in d.punches && d.punches[b].stage == stage }

  /** An action the code's own tests let through. A copy whose bytes are gone reads as rot, and no pass copies it. */
  ghost predicate Can(d: Disk, x: Action) {
    match x
    case Move(step) =>
      && Possible(d.v, step) && (step.Open? ==> step.seg !in d.punches)
      && (step.CopyLive? ==> Copy(step.seg, step.lsn) !in d.holed)
    case StartPunch(b) => b !in d.punches && Quiet(d.v, b)
    case Look(b, l) =>
      At(d, b, Looking) && Copy(b, l) in d.v.copies && l in d.v.log && d.v.log[l].op.Put? && !Live(d.v, l, b)
    case Ask(b) => At(d, b, Looking)
    case EndAsk(b) =>
      // A segment its tail has rolled off may slip by this flush too
      && b in d.punches && d.punches[b].stage.Flushing?
      && forall c :: c in d.punches[b].stage.target && c in d.v.copies && c.seg in d.v.open ==> c in d.v.durable
    case Release(b, l) => At(d, b, Freeing) && l in d.punches[b].dead
    case EndPunch(b) => b in d.punches
  }

  /** A newer published record reaches the put's key. */
  ghost predicate Spent(v: Volume, l: int)
    requires l in v.log
  {
    exists p :: p in v.published && p > l && Reaches(v.log, p, v.log[l].key)
  }

  /** A newer record of the put's key, published or not, is durable in the put's own segment. */
  ghost predicate Beside(v: Volume, b: int, l: int) {
    l in v.log && exists c :: c in v.durable && c.seg == b && c.lsn > l && Reaches(v.log, c.lsn, v.log[l].key)
  }

  /** A newer published record of the put's key stands among these copies. */
  ghost predicate Shields(v: Volume, l: int, some: set<Copy>, c: Copy) {
    l in v.log && c in some && c.lsn > l && c.lsn in v.published && Reaches(v.log, c.lsn, v.log[l].key)
  }

  ghost predicate Shielded(v: Volume, l: int, some: set<Copy>) { exists c :: Shields(v, l, some, c) }

  /** Every spent put the punch took has a durable newer record to go by. */
  ghost predicate Covering(d: Disk, b: int)
    requires b in d.punches
  {
    forall l {:trigger Copy(b, l)} ::
      l in d.punches[b].dead && Copy(b, l) in d.v.copies && l in d.v.log && d.v.log[l].op.Put? && Spent(d.v, l) ==>
        Shielded(d.v, l, d.v.durable) || Beside(d.v, b, l)
  }

  /** A newer durable record reaches the key of the put in this hole. */
  ghost predicate Buried(v: Volume, c: Copy) {
    c.lsn in v.log && exists x :: x in v.durable && x.lsn > c.lsn && Reaches(v.log, x.lsn, v.log[c.lsn].key)
  }

  /**
   No pass and no punch starts on a segment where a newest put's copy is awaited. A careful history takes a put into a
   punch only where a newer record of its key is published or lies beside it, ends no flush before such records are
   durable, and may crash anywhere. Any other takes all that are not live and ends flushes as the code does, and
   crashes only where every hole is buried.
   */
  ghost predicate Allowed(d: Disk, x: Action, careful: bool) {
    && Can(d, x)
    && (x.Move? ==> Allows(if careful then Firm else Held, d.v, x.step))
    && (x.Move? && x.step.Crash? && !careful ==> forall c :: c in d.holed ==> Buried(d.v, c))
    && (x.StartPunch? ==> !Awaited(d.v, x.seg))
    && (x.Look? && careful ==> Spent(d.v, x.lsn) || Beside(d.v, x.seg, x.lsn))
    && (x.EndAsk? && careful ==> Covering(d, x.seg))
  }

  ghost function Does(d: Disk, x: Action): Disk
    requires Can(d, x)
  {
    match x
    case Move(step) =>
      var w := Apply(d.v, step);
      Disk(w, d.holed * w.copies, if step.Crash? then map[] else d.punches)
    case StartPunch(b) => d.(punches := d.punches[b := Punch({}, Looking)])
    case Look(b, l) => d.(punches := d.punches[b := d.punches[b].(dead := d.punches[b].dead + {l})])
    case Ask(b) => d.(punches := d.punches[b := d.punches[b].(stage := Flushing(d.v.copies))])
    case EndAsk(b) => d.(punches := d.punches[b := d.punches[b].(stage := Freeing)])
    case Release(b, l) => d.(holed := d.holed + {Copy(b, l)} * d.v.copies)
    case EndPunch(b) => d.(punches := d.punches - {b})
  }

  ghost predicate IsHistory(d: Disk, xs: seq<Action>, e: Disk, careful: bool)
    decreases |xs|
  {
    if xs == [] then d == e
    else Allowed(d, xs[0], careful) && IsHistory(Does(d, xs[0]), xs[1..], e, careful)
  }

  /** The index finds every key's newest put in a segment that holds it, and not in a hole. */
  ghost predicate IndexWhole(d: Disk) {
    && IndexStands(d.v)
    && forall p {:trigger Newest(d.v.log, d.v.published, d.v.log[p].key, p)} ::
         p in d.v.log && d.v.log[p].op.Put? && Newest(d.v.log, d.v.published, d.v.log[p].key, p) ==>
           p in d.v.at && Copy(d.v.at[p], p) !in d.holed
  }

  /** So it is at the end of every history from here. */
  ghost predicate AlwaysWhole(d: Disk, careful: bool) {
    forall xs, e {:trigger IsHistory(d, xs, e, careful)} :: IsHistory(d, xs, e, careful) ==> IndexWhole(e)
  }

  lemma {:induction false} GoesOnTo(d: Disk, some: seq<Action>, e: Disk, more: seq<Action>, f: Disk, careful: bool)
    requires IsHistory(d, some, e, careful) && IsHistory(e, more, f, careful)
    ensures IsHistory(d, some + more, f, careful)
    decreases |some|
  {
    if some == [] {
      assert some + more == more;
    } else {
      GoesOnTo(Does(d, some[0]), some[1..], e, more, f, careful);
      assert (some + more)[1..] == some[1..] + more;
    }
  }

  /** One more action at the end of a history. */
  lemma HistoryPush(d: Disk, xs: seq<Action>, e: Disk, x: Action, f: Disk, careful: bool)
    requires IsHistory(d, xs, e, careful) && Allowed(e, x, careful) && Does(e, x) == f
    ensures IsHistory(d, xs + [x], f, careful)
  {
    assert [x][1..] == [] && IsHistory(f, [], f, careful) && IsHistory(e, [x], f, careful);
    GoesOnTo(d, xs, e, [x], f, careful);
  }

  // ---- the invariant ----

  /** A put that the index does not find here, and will not be told of. */
  ghost predicate DeadAt(v: Volume, b: int, l: int) {
    && l in v.done && l in v.log && v.log[l].op.Put? && b !in v.open && !Live(v, l, b)
    && forall a {:trigger AwaitedBy(v, b, a, l)} :: !AwaitedBy(v, b, a, l)
  }

  /** The copies that are durable once the punch's flush is through. */
  function Counted(v: Volume, stage: Stage): set<Copy> {
    match stage
    case Looking => v.copies
    case Flushing(target) => v.durable + target * v.copies
    case Freeing => v.durable
  }

  ghost predicate DeadOk(v: Volume, b: int, l: int, some: set<Copy>, careful: bool) {
    DeadAt(v, b, l) && (careful ==> Shielded(v, l, some) || Beside(v, b, l))
  }

  ghost predicate PunchOk(d: Disk, b: int, careful: bool)
    requires b in d.punches
  {
    && Quiet(d.v, b) && !Awaited(d.v, b)
    && forall l {:trigger Copy(b, l)} :: l in d.punches[b].dead && Copy(b, l) in d.v.copies ==>
         DeadOk(d.v, b, l, Counted(d.v, d.punches[b].stage), careful)
  }

  ghost predicate PunchesOk(d: Disk, careful: bool) {
    forall b {:trigger PunchOk(d, b, careful)} :: b in d.punches ==> PunchOk(d, b, careful)
  }

  ghost predicate HolesOk(d: Disk, careful: bool) {
    forall c {:trigger c in d.holed} :: c in d.holed ==>
      c in d.v.durable && DeadOk(d.v, c.seg, c.lsn, d.v.durable, careful)
  }

  ghost predicate DiskOk(d: Disk, careful: bool) {
    Inv(d.v) && (careful ==> Lasting(d.v)) && PunchesOk(d, careful) && HolesOk(d, careful)
  }

  lemma WholeByInv(d: Disk, careful: bool)
    requires DiskOk(d, careful)
    ensures IndexWhole(d)
  {
    StandsByInv(d.v);
    forall p | p in d.v.log && d.v.log[p].op.Put? && Newest(d.v.log, d.v.published, d.v.log[p].key, p)
      ensures p in d.v.at && Copy(d.v.at[p], p) !in d.holed
    {
      if Copy(d.v.at[p], p) in d.holed { assert DeadAt(d.v, d.v.at[p], p) && Live(d.v, p, d.v.at[p]); }
    }
  }

  // ---- what a step of the volume keeps ----

  /** Nothing comes to life in a segment that no tail appends to and no pass is about to point the index at. */
  lemma DeadStays(v: Volume, step: Step, b: int, l: int)
    requires Inv(v) && Enabled(v, step) && !step.Crash? && DeadAt(v, b, l) && (step.Open? ==> step.seg != b)
    ensures DeadAt(Apply(v, step), b, l)
  {
    var w := Apply(v, step);
    assert v.next !in v.log;
    assert forall p, k :: p in v.log ==> (Reaches(w.log, p, k) <==> Reaches(v.log, p, k));
    if Newest(w.log, w.published, w.log[l].key, l) {
      assert l in v.published;
      assert Newest(v.log, v.published, v.log[l].key, l);
      if step.Repoint? && step.lsn == l { assert !AwaitedBy(v, b, step.seg, l); }
      forall a ensures !AwaitedBy(w, b, a, l) { assert !AwaitedBy(v, b, a, l); }
    }
  }

  /** No pass comes to wait for a copy in a segment that no tail appends to. */
  lemma UnawaitedStays(v: Volume, step: Step, b: int)
    requires Inv(v) && Enabled(v, step) && !step.Crash? && Quiet(v, b) && !Awaited(v, b)
    requires step.Open? ==> step.seg != b
    ensures Quiet(Apply(v, step), b) && !Awaited(Apply(v, step), b)
  {
    var w := Apply(v, step);
    assert v.next !in v.log;
    assert forall p, k :: p in v.log ==> (Reaches(w.log, p, k) <==> Reaches(v.log, p, k));
    forall a, l ensures !AwaitedBy(w, b, a, l) {
      assert !AwaitedBy(v, b, a, l);
      if AwaitedBy(w, b, a, l) {
        assert a in v.passes && PassOk(v, a) && l in v.passes[a].pending && PendingOk(v, a, l);
        assert Newest(v.log, v.published, v.log[l].key, l);
      }
    }
  }

  lemma PassIsDurable(v: Volume, a: int, c: Copy)
    requires PassesOk(v) && a in v.passes && c in v.copies && c.seg == a
    ensures c in v.durable
  {
    assert PassOk(v, a) && Copy(a, c.lsn) == c;
  }

  lemma LastingShield(v: Volume, k: Key, b: int, l: int)
    requires Copy(b, l) in v.copies && l in v.log && v.log[l].op.Put? && v.log[l].key == k && NotOlder(v, k, l + 1)
    ensures Shielded(v, l, v.durable)
  {
    NoneDeleted(v, k, b, l);
    var e :| Lasts(v, k, l + 1, e);
    assert Shields(v, l, v.durable, e);
  }

  /** A shield that a retire takes away leaves another behind, as long as the put it shields stands. */
  lemma RetireLeavesShield(v: Volume, a: int, b: int, l: int, c: Copy)
    requires Inv(v) && Lasting(v) && Possible(v, Retire(a)) && Shields(v, l, v.copies, c) && c.seg == a
    requires v.log[l].op.Put? && Copy(b, l) in Outside(v.copies, a)
    ensures Shielded(Apply(v, Retire(a)), l, Apply(v, Retire(a)).durable)
  {
    PassIsDurable(v, a, c);
    OutlivedShield(v, a, b, l, v.log[l].key, c.lsn);
  }

  lemma OutlivedShield(v: Volume, a: int, b: int, l: int, k: Key, h: int)
    requires Basics(v) && Possible(v, Retire(a)) && Outlived(v, k, h) && h > l
    requires l in v.log && v.log[l].op.Put? && v.log[l].key == k && Copy(b, l) in Outside(v.copies, a)
    ensures Shielded(Apply(v, Retire(a)), l, Apply(v, Retire(a)).durable)
  {
    var w := Apply(v, Retire(a));
    OutlivedStays(v, Retire(a), k, h);
    OutlivedNotOlder(w, k, h);
    NotOlderThan(w, k, h, l + 1);
    LastingShield(w, k, b, l);
  }

  lemma NoneDeleted(v: Volume, k: Key, b: int, l: int)
    requires Copy(b, l) in v.copies && Reaches(v.log, l, k)
    ensures forall m, g {:trigger Deleted(v, k, m, g)} :: m > l ==> !Deleted(v, k, m, g)
  {
    assert Reaches(v.log, Copy(b, l).lsn, k);
  }

  lemma ShieldGoesOn(v: Volume, step: Step, l: int, c: Copy)
    requires Basics(v) && Possible(v, step) && !step.Crash? && Shields(v, l, v.copies, c)
    requires step.Retire? ==> c.seg != step.seg
    ensures Shields(Apply(v, step), l, Apply(v, step).copies, c)
  {
    assert v.next !in v.log;
  }

  lemma ShieldStays(v: Volume, step: Step, b: int, l: int, some: set<Copy>, more: set<Copy>)
    requires Inv(v) && Lasting(v) && Enabled(v, step) && !step.Crash? && Shielded(v, l, some) && some <= v.copies
    requires v.log[l].op.Put? && Copy(b, l) in v.copies && Copy(b, l) in Apply(v, step).copies
    requires some * Apply(v, step).copies <= more && Apply(v, step).durable <= more
    ensures Shielded(Apply(v, step), l, more)
  {
    var w := Apply(v, step);
    var c :| Shields(v, l, some, c);
    assert Shields(v, l, v.copies, c);
    if step.Retire? && c.seg == step.seg {
      RetireLeavesShield(v, step.seg, b, l, c);
      var e :| Shields(w, l, w.durable, e);
      assert Shields(w, l, more, e);
    } else {
      ShieldGoesOn(v, step, l, c);
      assert Shields(w, l, more, c);
    }
  }

  /** What lies beside a put goes with it and not before. */
  lemma BesideStays(v: Volume, step: Step, b: int, l: int)
    requires Basics(v) && Possible(v, step) && !step.Crash? && Beside(v, b, l) && step != Retire(b)
    ensures Beside(Apply(v, step), b, l)
  {
    var c :| c in v.durable && c.seg == b && c.lsn > l && Reaches(v.log, c.lsn, v.log[l].key);
    assert v.next !in v.log && c in Apply(v, step).durable;
  }

  lemma DeadOkStays(v: Volume, step: Step, b: int, l: int, some: set<Copy>, more: set<Copy>, careful: bool)
    requires Inv(v) && Enabled(v, step) && !step.Crash? && DeadOk(v, b, l, some, careful) && some <= v.copies
    requires careful ==> Lasting(v)
    requires Copy(b, l) in v.copies && Copy(b, l) in Apply(v, step).copies && (step.Open? ==> step.seg != b)
    requires some * Apply(v, step).copies <= more && Apply(v, step).durable <= more
    ensures DeadOk(Apply(v, step), b, l, more, careful)
  {
    DeadStays(v, step, b, l);
    if careful && Beside(v, b, l) {
      BesideStays(v, step, b, l);
    } else if careful {
      ShieldStays(v, step, b, l, some, more);
    }
  }

  lemma MoveKeeps(d: Disk, step: Step, careful: bool)
    requires DiskOk(d, careful) && Allowed(d, Move(step), careful) && !step.Crash?
    ensures DiskOk(Does(d, Move(step)), careful)
  {
    var e := Does(d, Move(step));
    StepKeeps(d.v, step);
    if careful { LastingStays(d.v, step); }
    forall b | b in e.punches ensures PunchOk(e, b, careful) {
      assert PunchOk(d, b, careful);
      PunchStays(d, step, b, careful);
    }
    forall c | c in e.holed ensures c in e.v.durable && DeadOk(e.v, c.seg, c.lsn, e.v.durable, careful) {
      assert Copy(c.seg, c.lsn) == c && c in d.holed;
      HoleStays(d, step, c, careful);
    }
  }

  lemma PunchStays(d: Disk, step: Step, b: int, careful: bool)
    requires Inv(d.v) && (careful ==> Lasting(d.v)) && Allowed(d, Move(step), careful) && !step.Crash?
    requires b in d.punches && PunchOk(d, b, careful)
    ensures PunchOk(Does(d, Move(step)), b, careful)
  {
    var e := Does(d, Move(step));
    var stage := d.punches[b].stage;
    UnawaitedStays(d.v, step, b);
    CountedStays(d.v, step, stage);
    forall l {:trigger Copy(b, l)} | l in e.punches[b].dead && Copy(b, l) in e.v.copies
      ensures DeadOk(e.v, b, l, Counted(e.v, stage), careful)
    {
      QuietGainsNone(d.v, step, b, l);
      DeadOkStays(d.v, step, b, l, Counted(d.v, stage), Counted(e.v, stage), careful);
    }
  }

  lemma CountedStays(v: Volume, step: Step, stage: Stage)
    requires Inv(v) && Enabled(v, step) && !step.Crash?
    ensures Counted(v, stage) <= v.copies
    ensures Counted(v, stage) * Apply(v, step).copies <= Counted(Apply(v, step), stage)
    ensures Apply(v, step).durable <= Counted(Apply(v, step), stage)
  {
    StepKeeps(v, step);
    var w := Apply(v, step);
    assert v.durable * w.copies <= w.durable;
  }

  lemma QuietGainsNone(v: Volume, step: Step, b: int, l: int)
    requires Enabled(v, step) && !step.Crash? && b !in v.open && Copy(b, l) in Apply(v, step).copies
    ensures Copy(b, l) in v.copies
  {}

  lemma HoleStays(d: Disk, step: Step, c: Copy, careful: bool)
    requires DiskOk(d, careful) && Allowed(d, Move(step), careful) && !step.Crash?
    requires c in d.holed && c in Apply(d.v, step).copies
    ensures c in Apply(d.v, step).durable
    ensures DeadOk(Apply(d.v, step), c.seg, c.lsn, Apply(d.v, step).durable, careful)
  {
    assert Copy(c.seg, c.lsn) == c && c in d.v.durable;
    CountedStays(d.v, step, Freeing);
    DeadOkStays(d.v, step, c.seg, c.lsn, d.v.durable, Apply(d.v, step).durable, careful);
  }

  // ---- what a crash keeps ----

  /** A put that something durable buries is dead after a crash. */
  lemma BuriedIsDead(v: Volume, crash: Step, b: int, l: int)
    requires Inv(v) && crash.Crash? && Possible(v, crash) && DeadAt(v, b, l) && Copy(b, l) in v.durable
    requires Buried(v, Copy(b, l))
    ensures DeadAt(Apply(v, crash), b, l)
  {
    var w := Apply(v, crash);
    var x :| x in v.durable && x.lsn > l && Reaches(v.log, x.lsn, v.log[l].key);
    assert Copy(b, l).lsn == l && l in w.log && w.log[l] == v.log[l];
    assert x.lsn in w.published && Reaches(w.log, x.lsn, w.log[l].key);
  }

  /** What is durable above a put outlives a crash, and is published after it. */
  lemma CrashKeepsShield(v: Volume, crash: Step, b: int, l: int)
    requires Inv(v) && crash.Crash? && Possible(v, crash) && Copy(b, l) in v.durable && l in v.log
    requires Shielded(v, l, v.durable) || Beside(v, b, l)
    ensures Buried(v, Copy(b, l)) && Shielded(Apply(v, crash), l, Apply(v, crash).durable)
  {
    var w := Apply(v, crash);
    var c :| c in v.durable && c.lsn > l && Reaches(v.log, c.lsn, v.log[l].key);
    assert Copy(b, l).lsn == l && l in w.log && w.log[l] == v.log[l];
    assert Reaches(v.log, c.lsn, v.log[l].key) && c.lsn in w.log && w.log[c.lsn] == v.log[c.lsn];
    assert Touches(w.log[c.lsn], w.log[l].key);
    assert Shields(w, l, w.durable, c);
  }

  lemma CrashMoveKeeps(d: Disk, crash: Step, careful: bool)
    requires DiskOk(d, careful) && crash.Crash? && Allowed(d, Move(crash), careful)
    ensures DiskOk(Does(d, Move(crash)), careful)
  {
    var e := Does(d, Move(crash));
    StepKeeps(d.v, crash);
    if careful { LastingStays(d.v, crash); }
    forall c | c in e.holed ensures c in e.v.durable && DeadOk(e.v, c.seg, c.lsn, e.v.durable, careful) {
      assert Copy(c.seg, c.lsn) == c && c in d.v.durable;
      if careful { CrashKeepsShield(d.v, crash, c.seg, c.lsn); }
      BuriedIsDead(d.v, crash, c.seg, c.lsn);
    }
  }

  // ---- what a punch keeps ----

  /** A spent put's key has a newer published record standing. */
  lemma SpentIsShielded(v: Volume, b: int, l: int)
    requires Inv(v) && Copy(b, l) in v.copies && l in v.log && v.log[l].op.Put? && Spent(v, l)
    ensures Shielded(v, l, v.copies)
  {
    var k := v.log[l].key;
    var p :| p in v.published && p > l && Reaches(v.log, p, k);
    assert Kept(v, p, k);
    assert Copy(b, l).lsn == l;
    assert Reaches(v.log, Copy(b, l).lsn, k);
    if c :| Covers(v, p, k, c) {
      assert Copy(c.seg, c.lsn) == c && Shields(v, l, v.copies, c);
    } else {
      var a, g :| g >= p && Gone(v, a, g, k);
      assert Shields(v, l, v.copies, Copy(a, g));
    }
  }

  lemma LookKeeps(d: Disk, b: int, l: int, careful: bool)
    requires DiskOk(d, careful) && Allowed(d, Look(b, l), careful)
    ensures DiskOk(Does(d, Look(b, l)), careful)
  {
    var e := Does(d, Look(b, l));
    assert PunchOk(d, b, careful);
    forall a ensures !AwaitedBy(d.v, b, a, l) {}
    if careful && Spent(d.v, l) { SpentIsShielded(d.v, b, l); }
    forall x | x in e.punches ensures PunchOk(e, x, careful) { assert PunchOk(d, x, careful); }
  }

  lemma DeadOkGrows(v: Volume, b: int, l: int, some: set<Copy>, more: set<Copy>, careful: bool)
    requires DeadOk(v, b, l, some, careful) && some <= more
    ensures DeadOk(v, b, l, more, careful)
  {
    if c :| Shields(v, l, some, c) { assert Shields(v, l, more, c); }
  }

  /** A flush that nothing slips by leaves every put it took covered. */
  lemma CoveredAsk(d: Disk, b: int)
    requires DiskOk(d, true) && Can(d, EndAsk(b))
    requires forall c :: c in d.punches[b].stage.target && c in d.v.copies ==> c in d.v.durable
    ensures Covering(d, b)
  {
    assert PunchOk(d, b, true);
    assert Counted(d.v, d.punches[b].stage) == d.v.durable;
  }

  lemma EndAskKeeps(d: Disk, e: Disk, b: int, careful: bool)
    requires b in d.punches && PunchOk(d, b, careful) && (careful ==> Covering(d, b))
    requires e == d.(punches := d.punches[b := d.punches[b].(stage := Freeing)])
    ensures PunchOk(e, b, careful)
  {
    forall l {:trigger Copy(b, l)} | l in e.punches[b].dead && Copy(b, l) in e.v.copies
      ensures DeadOk(e.v, b, l, e.v.durable, careful)
    {
      assert DeadOk(d.v, b, l, Counted(d.v, d.punches[b].stage), careful);
      if c :| Shields(d.v, l, Counted(d.v, d.punches[b].stage), c) { assert Spent(d.v, l); }
    }
  }

  /** Asking for the flush loses none of what will be durable once it is through. */
  lemma StageKeeps(d: Disk, e: Disk, b: int, careful: bool)
    requires b in d.punches && PunchOk(d, b, careful) && e.v == d.v && b in e.punches
    requires e.punches[b].dead == d.punches[b].dead
    requires Counted(d.v, d.punches[b].stage) <= Counted(d.v, e.punches[b].stage)
    ensures PunchOk(e, b, careful)
  {
    forall l {:trigger Copy(b, l)} | l in e.punches[b].dead && Copy(b, l) in e.v.copies
      ensures DeadOk(e.v, b, l, Counted(e.v, e.punches[b].stage), careful)
    {
      DeadOkGrows(d.v, b, l, Counted(d.v, d.punches[b].stage), Counted(e.v, e.punches[b].stage), careful);
    }
  }

  lemma PunchKeeps(d: Disk, x: Action, careful: bool)
    requires DiskOk(d, careful) && Allowed(d, x, careful) && !x.Move? && !x.Look?
    ensures DiskOk(Does(d, x), careful)
  {
    var e := Does(d, x);
    forall b | b in e.punches ensures PunchOk(e, b, careful) {
      if b in d.punches {
        assert PunchOk(d, b, careful);
        if x == EndAsk(b) { EndAskKeeps(d, e, b, careful); } else { StageKeeps(d, e, b, careful); }
      }
    }
    if x.Release? {
      assert PunchOk(d, x.seg, careful);
      assert forall c :: c in e.holed ==> c in d.holed || (c == Copy(x.seg, x.lsn) && c in d.v.copies);
    }
  }

  lemma ActionKeeps(d: Disk, x: Action, careful: bool)
    requires DiskOk(d, careful) && Allowed(d, x, careful)
    ensures DiskOk(Does(d, x), careful)
  {
    if x.Look? {
      LookKeeps(d, x.seg, x.lsn, careful);
    } else if !x.Move? {
      PunchKeeps(d, x, careful);
    } else if x.step.Crash? {
      CrashMoveKeeps(d, x.step, careful);
    } else {
      MoveKeeps(d, x.step, careful);
    }
  }

  lemma {:induction false} HistoryKeeps(d: Disk, xs: seq<Action>, e: Disk, careful: bool)
    requires DiskOk(d, careful) && IsHistory(d, xs, e, careful)
    ensures DiskOk(e, careful)
    decreases |xs|
  {
    if xs != [] {
      ActionKeeps(d, xs[0], careful);
      HistoryKeeps(Does(d, xs[0]), xs[1..], e, careful);
    }
  }

  /** Whatever runs from an empty disk satisfies the invariant. */
  lemma Reached(xs: seq<Action>, d: Disk, careful: bool)
    requires IsHistory(Start, xs, d, careful)
    ensures DiskOk(d, careful)
  {
    ReachedOk([], Empty);
    HistoryKeeps(Start, xs, d, careful);
  }
}
