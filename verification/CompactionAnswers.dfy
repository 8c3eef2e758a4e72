/**
 What compaction promises, over every run. Retiring a segment keeps a key's newest record, landed and durable,
 exactly if that record was published or stands elsewhere too. The newest published put is never lost, and no
 crash, at whatever step of whatever passes, leaves a key older than a published record that was durable before.
 What is said of landed records holds whether or not rolls slip by flushes; what is said of durable ones, where no
 flush ends with anything left to lose.
 */
module CompactionAnswers {
  import opened Common
  import opened Volume
  import opened Compaction
  import opened CompactionLasting

  // ---- retiring a segment ----

  /** Two sets of copies with the same newest record for a key answer alike. */
  lemma SameTopsSameAnswer(log: map<int, Record>, some: set<Copy>, others: set<Copy>, k: Key)
    requires forall m :: IsTop(log, some, k, m) <==> IsTop(log, others, k, m)
    ensures Answer(log, some, k) == Answer(log, others, k)
  {
    if m :| IsTop(log, some, k, m) {
      AnswerOfTop(log, some, k, m);
      AnswerOfTop(log, others, k, m);
    }
  }

  lemma NoTop(log: map<int, Record>, copies: set<Copy>, k: Key)
    requires forall c :: c in copies ==> !Reaches(log, c.lsn, k)
    ensures forall m :: !IsTop(log, copies, k, m)
  {
    forall m ensures !IsTop(log, copies, k, m) {
      if b :| Copy(b, m) in copies { assert !Reaches(log, Copy(b, m).lsn, k); }
    }
  }

  lemma NothingAnswersNone(log: map<int, Record>, copies: set<Copy>, k: Key)
    requires forall c :: c in copies ==> !Reaches(log, c.lsn, k)
    ensures Answer(log, copies, k) == None
  {
    NoTop(log, copies, k);
  }

  /** Another copy of a landed record changes no key's newest record. */
  lemma CopyOfLanded(log: map<int, Record>, copies: set<Copy>, a: int, t: int, l: int, k: Key, m: int)
    requires Copy(a, l) in copies
    ensures IsTop(log, copies, k, m) <==> IsTop(log, copies + {Copy(t, l)}, k, m)
  {
    if IsTop(log, copies + {Copy(t, l)}, k, m) {
      var b :| Copy(b, m) in copies + {Copy(t, l)};
      assert Copy(if Copy(b, m) in copies then b else a, m) in copies;
    }
  }

  /** The key's newest record was given up unpublished, and stands in this segment alone. */
  ghost predicate Orphan(v: Volume, copies: set<Copy>, a: int, k: Key, m: int) {
    IsTop(v.log, copies, k, m) && m !in v.published && forall b :: Copy(b, m) in copies ==> b == a
  }

  ghost predicate Orphaned(v: Volume, copies: set<Copy>, a: int, k: Key) { exists m :: Orphan(v, copies, a, k, m) }

  /** A published delete whose segment alone holds anything up to it, nothing of which is still in flight. */
  ghost predicate Sheds(v: Volume, a: int, m: int, k: Key) {
    && Copy(a, m) in v.copies && m in v.published && Reaches(v.log, m, k) && !v.log[m].op.Put?
    && (forall c :: c in v.copies && c.seg != a && Reaches(v.log, c.lsn, k) ==> c.lsn > m)
    && (forall l :: InFlight(v, l) ==> l > m)
  }

  /** A retire leaves the key's newest record standing, or it was a delete that goes with all it shadows. */
  ghost predicate KeepsNewest(v: Volume, copies: set<Copy>, a: int, k: Key) {
    forall m :: IsTop(v.log, copies, k, m) ==> IsTop(v.log, Outside(copies, a), k, m) || Sheds(v, a, m, k)
  }

  lemma RetireKeepsTop(v: Volume, a: int, k: Key, m: int)
    requires Inv(v) && Possible(v, Retire(a)) && IsTop(v.log, v.copies, k, m) && m in v.published
    ensures IsTop(v.log, Outside(v.copies, a), k, m) || Sheds(v, a, m, k)
  {
    assert PassOk(v, a) && Kept(v, m, k);
    var b :| Copy(b, m) in v.copies;
    assert Copy(b, m).lsn == m && !Over(v, m, k);
    if c :| Covers(v, m, k, c) {
      assert Copy(c.seg, c.lsn) == c && c.lsn == m && c in Outside(v.copies, a);
    } else {
      var x, g :| g >= m && Gone(v, x, g, k);
      assert Copy(x, g).lsn == g == m && PassOk(v, x);
      if x != a { assert Copy(x, m) in Outside(v.copies, a); }
    }
  }

  /** A delete that ends the newest durable record of a segment is that record itself. */
  lemma EndsIsTop(v: Volume, a: int, k: Key, m: int, g: int)
    requires FirmInv(v) && Copy(a, m) in v.durable && IsTop(v.log, v.durable, k, m) && Ends(v, k, m, g)
    ensures g == m
  {
    assert Reaches(v.log, Copy(a, m).lsn, k);
    if b :| Copy(b, g) in v.copies {
      assert Copy(b, g).lsn == g && Flushed(v, b) && PassOk(v, b);
      assert Copy(b, g) in v.durable;
    } else {
      assert NotOlder(v, k, g);
      forall x ensures !Deleted(v, k, g, x) { assert Deleted(v, k, g, x) ==> Copy(a, m).lsn > x; }
      var c :| Lasts(v, k, g, c);
      assert c.lsn <= m;
    }
  }

  lemma HasTop(v: Volume, b: int, k: Key, m: int)
    requires IsTop(v.log, v.durable, k, m) && HasLasting(v, b, m, k)
    ensures Copy(b, m) in v.durable
  {
    var d :| d in v.durable && d.seg == b && d.lsn >= m && d.lsn in v.published && Reaches(v.log, d.lsn, k);
    assert Copy(b, m) == d;
  }

  /** The newest durable record survives outside the segment, or is a delete that goes with all it shadows. */
  lemma RetireKeepsDurableTop(v: Volume, a: int, k: Key, m: int)
    requires FirmInv(v) && Possible(v, Retire(a)) && IsTop(v.log, v.durable, k, m) && m in v.published
    ensures IsTop(v.log, Outside(v.durable, a), k, m) || Sheds(v, a, m, k)
  {
    var b :| Copy(b, m) in v.durable;
    assert Copy(b, m).lsn == m && Reaches(v.log, Copy(b, m).lsn, k);
    if x :| x != a && Copy(x, m) in v.durable {
      assert Copy(x, m) in Outside(v.durable, a);
    } else {
      assert Outlived(v, k, Copy(b, m).lsn);
      forall c ensures !Outlives(v, k, m, c) { assert Copy(c.seg, c.lsn) == c; }
      var g :| Ends(v, k, m, g);
      EndsIsTop(v, a, k, m, g);
      forall c | c in v.copies && c.seg != a && Reaches(v.log, c.lsn, k) ensures c.lsn > m {
        if HasLasting(v, c.seg, m, k) { HasTop(v, c.seg, k, m); }
      }
    }
  }

  /** Of an unpublished newest record a retire keeps just what stands outside the segment. */
  lemma OrphanExactly(v: Volume, copies: set<Copy>, a: int, k: Key)
    requires forall m :: IsTop(v.log, copies, k, m) && m in v.published ==>
      IsTop(v.log, Outside(copies, a), k, m) || Sheds(v, a, m, k)
    ensures KeepsNewest(v, copies, a, k) <==> !Orphaned(v, copies, a, k)
  {
    forall m | IsTop(v.log, copies, k, m) && m !in v.published
      ensures IsTop(v.log, Outside(copies, a), k, m) <==> !Orphan(v, copies, a, k, m)
    {
      if b :| b != a && Copy(b, m) in copies { assert Copy(b, m) in Outside(copies, a); }
    }
  }

  lemma RetireExactly(v: Volume, a: int, k: Key)
    requires Inv(v) && Possible(v, Retire(a))
    ensures KeepsNewest(v, v.copies, a, k) <==> !Orphaned(v, v.copies, a, k)
    ensures FirmInv(v) ==> (KeepsNewest(v, v.durable, a, k) <==> !Orphaned(v, v.durable, a, k))
  {
    forall m | IsTop(v.log, v.copies, k, m) && m in v.published
      ensures IsTop(v.log, Outside(v.copies, a), k, m) || Sheds(v, a, m, k)
    {
      RetireKeepsTop(v, a, k, m);
    }
    OrphanExactly(v, v.copies, a, k);
    if FirmInv(v) {
      forall m | IsTop(v.log, v.durable, k, m) && m in v.published
        ensures IsTop(v.log, Outside(v.durable, a), k, m) || Sheds(v, a, m, k)
      {
        RetireKeepsDurableTop(v, a, k, m);
      }
      OrphanExactly(v, v.durable, a, k);
    }
  }

  lemma ReachedBy(steps: seq<Step>, v: Volume, care: Care)
    requires IsRun(Empty, steps, v, care) && !care.Any?
    ensures Inv(v) && (care.Firm? ==> FirmInv(v))
  {
    if care.Firm? { FirmReached(steps, v); } else { ReachedOk(steps, v); }
  }

  /** Main result: in every run a retire keeps a key's newest record exactly if the record is not an orphan. */
  lemma RetireKeepsNewestExactly(steps: seq<Step>, v: Volume, care: Care, a: int, k: Key)
    requires IsRun(Empty, steps, v, care) && !care.Any? && Possible(v, Retire(a))
    ensures KeepsNewest(v, v.copies, a, k) <==> !Orphaned(v, v.copies, a, k)
    ensures care.Firm? ==> (KeepsNewest(v, v.durable, a, k) <==> !Orphaned(v, v.durable, a, k))
  {
    ReachedBy(steps, v, care);
    RetireExactly(v, a, k);
  }

  /** Copies that keep the newest record, or lose a dropped delete with all it shadows, answer the same. */
  lemma KeptNewestAnswers(v: Volume, copies: set<Copy>, a: int, k: Key)
    requires KeepsNewest(v, copies, a, k) && copies <= v.copies
    ensures Answer(v.log, Outside(copies, a), k) == Answer(v.log, copies, k)
  {
    if c :| c in copies && Reaches(v.log, c.lsn, k) {
      var m := TopExists(v.log, copies, k, c);
      AnswerOfTop(v.log, copies, k, m);
      if IsTop(v.log, Outside(copies, a), k, m) {
        AnswerOfTop(v.log, Outside(copies, a), k, m);
      } else {
        NothingAnswersNone(v.log, Outside(copies, a), k);
      }
    } else {
      NothingAnswersNone(v.log, copies, k);
      NothingAnswersNone(v.log, Outside(copies, a), k);
    }
  }

  /**
   Main result: in every run, retiring a segment changes the answer of no key it does not hold the orphaned newest
   record of.
   */
  lemma RetireKeepsAnswers(steps: seq<Step>, v: Volume, care: Care, a: int, k: Key)
    requires IsRun(Empty, steps, v, care) && !care.Any? && Possible(v, Retire(a))
    ensures !Orphaned(v, v.copies, a, k) ==>
      Answer(Apply(v, Retire(a)).log, Apply(v, Retire(a)).copies, k) == Answer(v.log, v.copies, k)
    ensures care.Firm? && !Orphaned(v, v.durable, a, k) ==>
      Answer(Apply(v, Retire(a)).log, Apply(v, Retire(a)).durable, k) == Answer(v.log, v.durable, k)
  {
    ReachedBy(steps, v, care);
    RetireExactly(v, a, k);
    if !Orphaned(v, v.copies, a, k) { KeptNewestAnswers(v, v.copies, a, k); }
    if care.Firm? && !Orphaned(v, v.durable, a, k) { KeptNewestAnswers(v, v.durable, a, k); }
  }

  /** An orphaned put is gone with its segment, and the key reads older or not at all. */
  lemma OrphanIsLost(v: Volume, a: int, k: Key, m: int)
    requires Possible(v, Retire(a)) && Orphan(v, v.copies, a, k, m)
    ensures !Landed(Apply(v, Retire(a)), m)
    ensures forall n :: IsTop(v.log, Apply(v, Retire(a)).copies, k, n) ==> n < m
  {
    var w := Apply(v, Retire(a));
    assert forall b :: Copy(b, m) !in w.copies;
    forall n | IsTop(v.log, w.copies, k, n) ensures n < m {
      var b :| Copy(b, n) in w.copies;
      assert Copy(b, n).lsn == n && Copy(b, n) in v.copies;
    }
  }

  // ---- dropping a delete ----

  /**
   A delete is dropped for its age only when nothing it hides stands outside the segment or can still land. One
   that was given up unpublished may uncover a put the index holds live, which its pass has just copied.
   */
  lemma DropHidesNothing(steps: seq<Step>, v: Volume, a: int, l: int, k: Key)
    requires IsRun(Empty, steps, v, Held) && Enabled(v, Drop(a, l)) && Reaches(v.log, l, k) && l < v.passes[a].floor
    ensures forall c :: c in v.copies && c.seg != a && Reaches(v.log, c.lsn, k) ==>
      c.lsn >= l || (l !in v.published && c.lsn in v.passes[a].copied)
    ensures forall x :: InFlight(v, x) ==> x > l
  {
    ReachedOk(steps, v);
    assert PassOk(v, a);
    forall c | c in v.copies && c.seg != a && Reaches(v.log, c.lsn, k)
      ensures c.lsn >= l || (l !in v.published && c.lsn in v.passes[a].copied)
    {
      if c.lsn < v.passes[a].floor { assert c.lsn in v.passes[a].copied; }
    }
  }

  /** A delete at or past the floor is dropped only when a newer put of its key is published and stands. */
  lemma DropReplaced(steps: seq<Step>, v: Volume, a: int, l: int) returns (p: int)
    requires IsRun(Empty, steps, v, Held) && Enabled(v, Drop(a, l)) && l >= v.passes[a].floor
    ensures v.log[l].op.Delete? && p > l && Newest(v.log, v.published, v.log[l].key, p)
    ensures v.log[p].op.Put? && Landed(v, p)
  {
    p :| p > l && p in v.log && v.log[p].op.Put? && Newest(v.log, v.published, v.log[l].key, p);
    NewestNeverLost(steps, v, v.log[l].key, p);
  }

  // ---- the index and the files agree ----

  /** The newest published put of a key has always landed in a segment that stands. */
  lemma NewestNeverLost(steps: seq<Step>, v: Volume, k: Key, p: int)
    requires IsRun(Empty, steps, v, Held) && Newest(v.log, v.published, k, p) && v.log[p].op.Put?
    ensures p in v.at && Copy(v.at[p], p) in v.copies
  {
    ReachedOk(steps, v);
    assert Newest(v.log, v.published, v.log[p].key, p);
    assert OwedAt(v, v.at[p], p);
  }

  /** Where the newest published version does not stand any more, no published record that old does. */
  lemma NewestAbsent(v: Volume, k: Key, p: int)
    requires Inv(v) && Newest(v.log, v.published, k, p) && forall c :: c in v.copies ==> c.lsn != p
    ensures Over(v, p, k)
  {
    assert Kept(v, p, k);
    forall c ensures !Covers(v, p, k, c) { assert Copy(c.seg, c.lsn) == c; }
    forall a, g | g >= p ensures !Gone(v, a, g, k) { assert Copy(a, g).lsn == g; }
  }

  /** Where all that has landed for a key is published, the files answer what the index's newest version says. */
  lemma IndexAgrees(steps: seq<Step>, v: Volume, k: Key, p: int)
    requires IsRun(Empty, steps, v, Held) && Newest(v.log, v.published, k, p)
    requires forall c :: c in v.copies && Reaches(v.log, c.lsn, k) ==> c.lsn in v.published
    ensures Answer(v.log, v.copies, k) == if v.log[p].op.Put? then Some(v.log[p].op.value) else None
  {
    ReachedOk(steps, v);
    if v.log[p].op.Put? { NewestNeverLost(steps, v, k, p); }
    if c :| c in v.copies && c.lsn == p {
      assert IsTop(v.log, v.copies, k, p) by { assert Copy(c.seg, p) == c; }
      AnswerOfTop(v.log, v.copies, k, p);
    } else {
      NewestAbsent(v, k, p);
      NothingAnswersNone(v.log, v.copies, k);
    }
  }

  // ---- a settled key stays settled ----

  /** Both logs hold the same records under the numbers landed here. */
  predicate SameRecords(log: map<int, Record>, other: map<int, Record>, copies: set<Copy>) {
    forall c :: c in copies ==> c.lsn in log && c.lsn in other && log[c.lsn] == other[c.lsn]
  }

  /** The same newest record for a key, if there is one. */
  ghost predicate SameTop(log: map<int, Record>, some: set<Copy>, others: set<Copy>, k: Key) {
    forall m :: IsTop(log, some, k, m) <==> IsTop(log, others, k, m)
  }

  /** A key of which every landed record is published, and the newest would outlive a crash. */
  ghost predicate Settled(v: Volume, k: Key) {
    && SameTop(v.log, v.copies, v.durable, k)
    && forall c :: c in v.copies && Reaches(v.log, c.lsn, k) ==> c.lsn in v.published
  }

  lemma SettledNotOrphaned(v: Volume, copies: set<Copy>, a: int, k: Key)
    requires Settled(v, k) && copies <= v.copies
    ensures !Orphaned(v, copies, a, k)
  {
    forall m ensures !Orphan(v, copies, a, k, m) {
      if b :| Copy(b, m) in copies { assert Copy(b, m).lsn == m; }
    }
  }

  lemma SameRecordsSameTop(log: map<int, Record>, other: map<int, Record>, copies: set<Copy>, k: Key)
    requires SameRecords(log, other, copies)
    ensures forall m :: IsTop(log, copies, k, m) <==> IsTop(other, copies, k, m)
    ensures Answer(log, copies, k) == Answer(other, copies, k)
  {
    forall m ensures IsTop(log, copies, k, m) <==> IsTop(other, copies, k, m) {
      if b :| Copy(b, m) in copies { assert Copy(b, m).lsn in log; }
    }
    if m :| IsTop(log, copies, k, m) {
      AnswerOfTop(log, copies, k, m);
      AnswerOfTop(other, copies, k, m);
      var b :| Copy(b, m) in copies;
      assert Copy(b, m).lsn in log;
    }
  }

  /** Another copy that is not of this key, or is of a record landed already, is not a new newest record. */
  lemma CopyKeepsTop(log: map<int, Record>, copies: set<Copy>, c: Copy, k: Key)
    requires !Reaches(log, c.lsn, k) || exists a :: Copy(a, c.lsn) in copies
    ensures SameTop(log, copies + {c}, copies, k)
  {
    forall m ensures IsTop(log, copies + {c}, k, m) <==> IsTop(log, copies, k, m) {
      if a :| Copy(a, c.lsn) in copies {
        CopyOfLanded(log, copies, a, c.seg, c.lsn, k, m);
        assert Copy(c.seg, c.lsn) == c;
      } else if b :| Copy(b, m) in copies + {c} {
        assert Copy(b, m) == c || Copy(b, m) in copies;
      }
    }
  }

  /** Making more of what has landed durable cannot unsettle a key. */
  lemma SyncKeepsTop(log: map<int, Record>, copies: set<Copy>, some: set<Copy>, more: set<Copy>, k: Key)
    requires SameTop(log, copies, some, k) && some <= more <= copies
    ensures SameTop(log, copies, more, k)
  {
    forall m ensures IsTop(log, copies, k, m) <==> IsTop(log, more, k, m) {
      if b :| Copy(b, m) in copies && Reaches(log, m, k) {
        var n := TopExists(log, copies, k, Copy(b, m));
        var d :| Copy(d, n) in some;
        assert Copy(d, n) in more;
      }
    }
  }

  lemma RetireKeepsSettled(v: Volume, a: int, k: Key)
    requires FirmInv(v) && Possible(v, Retire(a)) && Settled(v, k)
    ensures Settled(Apply(v, Retire(a)), k)
    ensures Answer(v.log, Outside(v.copies, a), k) == Answer(v.log, v.copies, k)
  {
    var landed, kept := Outside(v.copies, a), Outside(v.durable, a);
    assert forall c :: c in kept ==> c in landed;
    RetireExactly(v, a, k);
    SettledNotOrphaned(v, v.copies, a, k);
    SettledNotOrphaned(v, v.durable, a, k);
    KeptNewestAnswers(v, v.copies, a, k);
    if c :| c in v.copies && Reaches(v.log, c.lsn, k) {
      var n := TopExists(v.log, v.copies, k, c);
      if Sheds(v, a, n, k) && !IsTop(v.log, landed, k, n) {
        NoTop(v.log, landed, k);
        NoTop(v.log, kept, k);
      } else {
        forall m ensures IsTop(v.log, landed, k, m) <==> IsTop(v.log, kept, k, m) {
          if IsTop(v.log, landed, k, m) { TopUnique(v.log, landed, k, m, n); }
          if IsTop(v.log, kept, k, m) { TopUnique(v.log, kept, k, m, n); }
        }
      }
    } else {
      NoTop(v.log, landed, k);
      NoTop(v.log, kept, k);
    }
  }

  /** Whether the run lands no new record of the key. */
  ghost predicate LeavesAlone(v: Volume, steps: seq<Step>, k: Key)
    decreases |steps|
  {
    steps != [] && Possible(v, steps[0]) ==>
      && !(steps[0].Land? && Reaches(v.log, steps[0].lsn, k))
      && LeavesAlone(Apply(v, steps[0]), steps[1..], k)
  }

  lemma SettledThroughStep(v: Volume, step: Step, k: Key)
    requires FirmInv(v) && Enabled(v, step) && Settled(v, k) && !(step.Land? && Reaches(v.log, step.lsn, k))
    ensures Settled(Apply(v, step), k)
    ensures Answer(Apply(v, step).log, Apply(v, step).copies, k) == Answer(v.log, v.copies, k)
  {
    var w := Apply(v, step);
    match step
    case Land(l, b) => SettledThroughCopy(v, w, Copy(b, l), k);
    case CopyLive(a, l, t) => SettledThroughCopy(v, w, Copy(t, l), k);
    case Carry(a, l, t) => SettledThroughCopy(v, w, Copy(t, l), k);
    case Sync(b) => SyncKeepsTop(v.log, v.copies, v.durable, w.durable, k);
    case Retire(a) => RetireKeepsSettled(v, a, k);
    case Crash(kept, found, next) =>
      SyncKeepsTop(v.log, v.copies, v.durable, kept, k);
      SameRecordsSameTop(w.log, v.log, kept, k);
      SameTopsSameAnswer(v.log, v.copies, kept, k);
    case Draw(r) =>
      SameRecordsSameTop(w.log, v.log, v.copies, k);
      SameRecordsSameTop(w.log, v.log, v.durable, k);
    case _ =>
  }

  lemma SettledThroughCopy(v: Volume, w: Volume, c: Copy, k: Key)
    requires Settled(v, k) && w.log == v.log && w.copies == v.copies + {c} && w.durable == v.durable
    requires w.published == v.published
    requires !Reaches(v.log, c.lsn, k) || exists a :: Copy(a, c.lsn) in v.copies
    ensures Settled(w, k) && Answer(w.log, w.copies, k) == Answer(v.log, v.copies, k)
  {
    CopyKeepsTop(v.log, v.copies, c, k);
    if a :| Copy(a, c.lsn) in v.copies { assert Copy(a, c.lsn).lsn == c.lsn; }
    SameTopsSameAnswer(v.log, w.copies, v.copies, k);
  }

  /**
   Main result: a key whose newest record is durable answers the same, as landed and as a crash would
   leave it, at the end of any run that lands no new record of it: passes, flushes, retires, crashes
   and every write to other keys included.
   */
  lemma {:induction false} SettledThroughRun(v: Volume, steps: seq<Step>, w: Volume, k: Key)
    requires FirmInv(v) && Settled(v, k) && IsRun(v, steps, w, Firm) && LeavesAlone(v, steps, k)
    ensures Settled(w, k)
    ensures Answer(w.log, w.copies, k) == Answer(w.log, w.durable, k) == Answer(v.log, v.copies, k)
    decreases |steps|
  {
    SameTopsSameAnswer(v.log, v.copies, v.durable, k);
    if steps != [] {
      SettledThroughStep(v, steps[0], k);
      StepKeeps(v, steps[0]);
      LastingStays(v, steps[0]);
      VanishedStays(v, steps[0]);
      SettledThroughRun(Apply(v, steps[0]), steps[1..], w, k);
    }
  }

  // ---- no crash leaves anything older ----

  /**
   Main result: once a published record of a key is durable, a crash after any run of writes, passes, flushes and
   retires, at whatever step of them and whatever it keeps of what was not synced, leaves a record of the key at
   least as new, unless a newer delete was dropped meanwhile, and then nothing that old is left to turn up.
   */
  lemma CrashNeverOlder(v: Volume, steps: seq<Step>, w: Volume, crash: Step, k: Key, m: int, b: int)
    requires Inv(v) && Lasting(v) && IsRun(v, steps, w, Firm) && NoCrash(steps) && crash.Crash? && Possible(w, crash)
    requires m in v.published && Reaches(v.log, m, k) && Copy(b, m) in v.durable
    ensures var z := Apply(w, crash);
      || (exists n :: n >= m && IsTop(z.log, z.copies, k, n))
      || (exists g :: Deleted(w, k, m, g) && forall c :: c in z.copies && Reaches(z.log, c.lsn, k) ==> c.lsn > g)
  {
    assert Lasts(v, k, m, Copy(b, m));
    RunNotOlder(v, steps, w, k, m);
    var z := Apply(w, crash);
    if c :| Lasts(w, k, m, c) {
      assert Reaches(z.log, c.lsn, k);
      var n := TopExists(z.log, z.copies, k, c);
    } else {
      var g :| Deleted(w, k, m, g);
      assert forall c :: c in z.copies && Reaches(z.log, c.lsn, k) ==> c in w.copies && Reaches(w.log, c.lsn, k);
    }
  }
}
