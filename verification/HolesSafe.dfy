/**
 When a punch leaves the index on records whose bytes are there. Where no crash comes upon a hole nothing durable
 buries, it does, whatever follows, exactly if it starts where no newest put's copy waits for the index to be told.
 With crashes anywhere it does exactly if every put it takes has a newer record of its key, published or beside it,
 and its flush does not end before such records are durable: the footer still lists the put, and a rebuild may choose
 it.
 */
module HolesSafe {
  import opened Volume
  import opened Compaction
  import opened CompactionAwaited
  import opened CompactionLasting
  import opened Holes

  lemma Weaken(d: Disk, careful: bool)
    requires DiskOk(d, careful)
    ensures DiskOk(d, false)
  {
    forall b | b in d.punches ensures PunchOk(d, b, false) { assert PunchOk(d, b, careful); }
  }

  // ---- a punch runs to its end ----

  /** All synced, one segment after the other. */
  lemma {:induction false} SyncAll(d: Disk, segs: set<int>, careful: bool) returns (xs: seq<Action>, e: Disk)
    requires d.holed <= d.v.copies
    ensures IsHistory(d, xs, e, careful) && e == d.(v := d.v.(durable := e.v.durable))
    ensures forall c :: c in d.v.copies && c.seg in segs ==> c in e.v.durable
    ensures d.v.durable <= e.v.durable <= d.v.durable + d.v.copies
    decreases |segs|
  {
    xs, e := [], d;
    if b :| b in segs {
      var f := Does(d, Move(Sync(b)));
      assert f.holed == d.holed;
      HistoryPush(d, [], d, Move(Sync(b)), f, careful);
      xs, e := SyncAll(f, segs - {b}, careful);
      GoesOnTo(d, [] + [Move(Sync(b))], f, xs, e, careful);
      xs := [] + [Move(Sync(b))] + xs;
    }
  }

  /** With all that landed durable, every spent put is covered. */
  lemma SyncedCovers(d: Disk, b: int)
    requires Inv(d.v) && b in d.punches && d.v.copies <= d.v.durable
    ensures Covering(d, b)
  {
    forall l {:trigger Copy(b, l)} |
      l in d.punches[b].dead && Copy(b, l) in d.v.copies && l in d.v.log && d.v.log[l].op.Put? && Spent(d.v, l)
      ensures Shielded(d.v, l, d.v.durable)
    {
      SpentIsShielded(d.v, b, l);
      var c :| Shields(d.v, l, d.v.copies, c);
      assert Shields(d.v, l, d.v.durable, c);
    }
  }

  /** A punch flushes all that has landed. */
  lemma Flushes(d: Disk, b: int, careful: bool) returns (xs: seq<Action>, e: Disk)
    requires Inv(d.v) && d.holed <= d.v.copies && At(d, b, Looking)
    ensures IsHistory(d, xs, e, careful) && e.v == d.v.(durable := d.v.copies) && Inv(e.v)
    ensures e.holed == d.holed && b in e.punches && e.punches[b] == Punch(d.punches[b].dead, Flushing(d.v.copies))
  {
    var asked := Does(d, Ask(b));
    HistoryPush(d, [], d, Ask(b), asked, careful);
    xs, e := SyncAll(asked, set c | c in d.v.copies :: c.seg, careful);
    assert e.v.durable == d.v.copies;
    PassesClosed(d.v);
    QuietKeeps(d.v, e.v);
    GoesOnTo(d, [] + [Ask(b)], asked, xs, e, careful);
    xs := [] + [Ask(b)] + xs;
  }

  /** It then frees a put it took, and has changed nothing else but what is durable. */
  lemma Frees(d: Disk, b: int, l: int, careful: bool) returns (xs: seq<Action>, e: Disk)
    requires Inv(d.v) && d.holed <= d.v.copies && At(d, b, Looking)
    requires l in d.punches[b].dead && Copy(b, l) in d.v.copies
    ensures IsHistory(d, xs, e, careful) && e.v == d.v.(durable := d.v.copies) && Inv(e.v)
    ensures e.holed == d.holed + {Copy(b, l)}
  {
    var synced;
    xs, synced := Flushes(d, b, careful);
    SyncedCovers(synced, b);
    var flushed := Does(synced, EndAsk(b));
    HistoryPush(d, xs, synced, EndAsk(b), flushed, careful);
    xs := xs + [EndAsk(b)];
    e := Does(flushed, Release(b, l));
    HistoryPush(d, xs, flushed, Release(b, l), e, careful);
    xs := xs + [Release(b, l)];
  }

  // ---- where no hole is exposed ----

  /** The punch finds the awaited copy dead and frees it. */
  lemma FreesAwaited(d: Disk, b: int, a: int, l: int) returns (xs: seq<Action>, e: Disk)
    requires DiskOk(d, false) && Can(d, StartPunch(b)) && AwaitedBy(d.v, b, a, l)
    ensures IsHistory(Does(d, StartPunch(b)), xs, e, false) && e.v == d.v.(durable := d.v.copies)
    ensures Copy(b, l) in e.v.copies && Copy(b, l) in e.holed
  {
    var begun := Does(d, StartPunch(b));
    assert PassOk(d.v, a) && PendingOk(d.v, a, l);
    assert forall c :: c in d.holed ==> c in d.v.copies;
    var looked := Does(begun, Look(b, l));
    HistoryPush(begun, [], begun, Look(b, l), looked, false);
    xs, e := Frees(looked, b, l, false);
    GoesOnTo(begun, [] + [Look(b, l)], looked, xs, e, false);
    xs := [] + [Look(b, l)] + xs;
  }

  /** The pass then points the index at it. */
  lemma PunchLoses(d: Disk, b: int, a: int, l: int) returns (xs: seq<Action>, e: Disk)
    requires DiskOk(d, false) && Can(d, StartPunch(b)) && AwaitedBy(d.v, b, a, l)
    ensures IsHistory(Does(d, StartPunch(b)), xs, e, false) && !IndexWhole(e)
    ensures e.v.log == d.v.log && e.v.published == d.v.published && l in e.v.at && e.v.at[l] == b
    ensures Copy(b, l) in e.v.copies && Copy(b, l) in e.holed
  {
    var freed;
    xs, freed := FreesAwaited(d, b, a, l);
    e := Does(freed, Move(Repoint(a, l)));
    HistoryPush(Does(d, StartPunch(b)), xs, freed, Move(Repoint(a, l)), e, false);
    xs := xs + [Move(Repoint(a, l))];
    assert PassOk(d.v, a) && PendingOk(d.v, a, l);
    assert Newest(e.v.log, e.v.published, e.v.log[l].key, l);
  }

  /**
   Main result: a punch may start on a segment, for all that may follow with no crash upon a hole that nothing durable
   buries, exactly if no newest put's copy is awaited there.
   */
  lemma SafeExactlyUnawaited(before: seq<Action>, d: Disk, careful: bool, b: int)
    requires IsHistory(Start, before, d, careful) && Can(d, StartPunch(b))
    ensures AlwaysWhole(Does(d, StartPunch(b)), false) <==> !Awaited(d.v, b)
  {
    var begun := Does(d, StartPunch(b));
    Reached(before, d, careful);
    Weaken(d, careful);
    if a, l :| AwaitedBy(d.v, b, a, l) {
      var xs, e := PunchLoses(d, b, a, l);
      assert !IndexWhole(e);
    } else {
      ActionKeeps(d, StartPunch(b), false);
      AlwaysByInv(begun, false);
    }
  }

  // ---- across a crash ----

  ghost function Home(kept: set<Copy>, l: int): int
    requires exists b :: Copy(b, l) in kept
    ensures Copy(Home(kept, l), l) in kept
  {
    var b :| Copy(b, l) in kept; b
  }

  /** What a rebuild may find in the footers: each record once, and this one where it is asked to. */
  lemma MayFind(v: Volume, c: Copy) returns (crash: Step)
    requires Basics(v) && c in v.durable
    ensures crash.Crash? && Possible(v, crash) && crash.kept == v.durable && crash.found[c.lsn] == c.seg
  {
    var lsns := set x | x in v.durable :: x.lsn;
    forall x | x in v.durable ensures Copy(x.seg, x.lsn) == x {}
    forall l | l in lsns ensures exists b :: Copy(b, l) in v.durable {
      var x :| x in v.durable && x.lsn == l;
      assert Copy(x.seg, l) in v.durable;
    }
    var found := map l | l in lsns :: if l == c.lsn then c.seg else Home(v.durable, l);
    crash := Crash(v.durable, found, v.next);
  }

  /** A put that nothing durable buries is the newest of its key after a crash. */
  lemma Unburied(v: Volume, crash: Step, c: Copy)
    requires Basics(v) && crash.Crash? && Possible(v, crash) && crash.kept == v.durable && c in v.durable
    requires v.log[c.lsn].op.Put? && !Buried(v, c)
    ensures var w := Apply(v, crash); c.lsn in w.log && Newest(w.log, w.published, w.log[c.lsn].key, c.lsn)
  {
    var w, k := Apply(v, crash), v.log[c.lsn].key;
    forall p | p in w.published && Reaches(w.log, p, k) ensures p <= c.lsn {
      assert Copy(crash.found[p], p).lsn == p;
    }
  }

  /** A crash finds the index a newest put in a hole only if nothing durable buried it. */
  lemma BuriedStaysOff(d: Disk, crash: Step)
    requires Inv(d.v) && crash.Crash? && Possible(d.v, crash) && forall c :: c in d.holed ==> Buried(d.v, c)
    ensures IndexWhole(Does(d, Move(crash)))
  {
    var e := Does(d, Move(crash));
    CrashKeeps(d.v, crash.kept, crash.found, crash.next);
    StandsByInv(e.v);
    forall p | p in e.v.log && e.v.log[p].op.Put? && Newest(e.v.log, e.v.published, e.v.log[p].key, p)
      ensures Copy(e.v.at[p], p) !in e.holed
    {
      if Copy(e.v.at[p], p) in d.holed {
        assert Buried(d.v, Copy(e.v.at[p], p));
        var x :| x in d.v.durable && x.lsn > p && Reaches(d.v.log, x.lsn, d.v.log[p].key);
        assert x.lsn in e.v.published && Reaches(e.v.log, x.lsn, e.v.log[p].key);
        assert false;
      }
    }
  }

  /**
   Main result: whatever a crash here keeps and a rebuild picks, the index is on records whose bytes are there, exactly
   if each put in a hole has a newer durable record of its key.
   */
  lemma CrashExactlyBuried(before: seq<Action>, d: Disk, careful: bool)
    requires IsHistory(Start, before, d, careful)
    ensures (forall crash: Step :: crash.Crash? && Possible(d.v, crash) ==> IndexWhole(Does(d, Move(crash))))
      <==> (forall c :: c in d.holed ==> Buried(d.v, c))
  {
    Reached(before, d, careful);
    if c :| c in d.holed && !Buried(d.v, c) {
      assert Copy(c.seg, c.lsn) == c && DeadAt(d.v, c.seg, c.lsn);
      var crash := MayFind(d.v, c);
      Unburied(d.v, crash, c);
      assert !IndexWhole(Does(d, Move(crash)));
    } else {
      forall crash: Step | crash.Crash? && Possible(d.v, crash) ensures IndexWhole(Does(d, Move(crash))) {
        BuriedStaysOff(d, crash);
      }
    }
  }

  /** A put in a hole that nothing durable buries is where a crash may put the index. */
  lemma UnburiedLoses(d: Disk, b: int, l: int) returns (crash: Step, e: Disk)
    requires Basics(d.v) && Copy(b, l) in d.holed && Copy(b, l) in d.v.durable && l in d.v.log && d.v.log[l].op.Put?
    requires !Buried(d.v, Copy(b, l))
    ensures crash.Crash? && Possible(d.v, crash) && e == Does(d, Move(crash)) && !IndexWhole(e)
    ensures l in e.v.log && Newest(e.v.log, e.v.published, d.v.log[l].key, l) && Copy(b, l) in e.holed
  {
    assert Copy(b, l).lsn == l;
    crash := MayFind(d.v, Copy(b, l));
    Unburied(d.v, crash, Copy(b, l));
    e := Does(d, Move(crash));
  }

  /** So a put is lost that was punched with nothing newer landed for its key. */
  lemma UnspentLoses(d: Disk, b: int, l: int) returns (xs: seq<Action>, e: Disk)
    requires DiskOk(d, false) && At(d, b, Looking) && l in d.punches[b].dead && Copy(b, l) in d.v.copies
    requires forall c :: c in d.v.copies && Reaches(d.v.log, c.lsn, d.v.log[l].key) ==> c.lsn <= l
    ensures IsHistory(d, xs, e, true) && !IndexWhole(e)
    ensures l in e.v.log && Newest(e.v.log, e.v.published, d.v.log[l].key, l) && Copy(b, l) in e.holed
  {
    assert PunchOk(d, b, false) && DeadAt(d.v, b, l);
    assert forall c :: c in d.holed ==> c in d.v.copies;
    var freed, crash;
    xs, freed := Frees(d, b, l, true);
    crash, e := UnburiedLoses(freed, b, l);
    HistoryPush(d, xs, freed, Move(crash), e, true);
    xs := xs + [Move(crash)];
  }

  /** And one whose punch ends its flush with no newer record of its key durable. */
  lemma UncoveredLoses(d: Disk, b: int, l: int) returns (xs: seq<Action>, e: Disk)
    requires DiskOk(d, true) && Can(d, EndAsk(b)) && l in d.punches[b].dead && Copy(b, l) in d.v.copies
    requires !Buried(d.v, Copy(b, l))
    ensures IsHistory(Does(d, EndAsk(b)), xs, e, true) && !IndexWhole(e)
    ensures l in e.v.log && Newest(e.v.log, e.v.published, d.v.log[l].key, l) && Copy(b, l) in e.holed
  {
    assert PunchOk(d, b, true) && DeadAt(d.v, b, l);
    var flushed := Does(d, EndAsk(b));
    var freed, crash := Does(flushed, Release(b, l)), Abandon(0);
    HistoryPush(flushed, [], flushed, Release(b, l), freed, true);
    crash, e := UnburiedLoses(freed, b, l);
    HistoryPush(flushed, [] + [Release(b, l)], freed, Move(crash), e, true);
    xs := [] + [Release(b, l)] + [Move(crash)];
  }

  lemma AlwaysByInv(d: Disk, careful: bool)
    requires DiskOk(d, careful)
    ensures AlwaysWhole(d, careful)
  {
    forall xs, e {:trigger IsHistory(d, xs, e, careful)} | IsHistory(d, xs, e, careful) ensures IndexWhole(e) {
      HistoryKeeps(d, xs, e, careful);
      WholeByInv(e, careful);
    }
  }

  /**
   Main result: a punch may take a put, for all that may follow with crashes anywhere in it, exactly if a newer record
   of its key is published or lies beside it, where nothing else newer landed for the key.
   */
  lemma SafeExactlySpent(before: seq<Action>, d: Disk, b: int, l: int)
    requires IsHistory(Start, before, d, true) && Can(d, Look(b, l))
    requires forall c :: c in d.v.copies && c.lsn > l && Reaches(d.v.log, c.lsn, d.v.log[l].key) ==>
      c.lsn in d.v.published || c.seg == b
    ensures AlwaysWhole(Does(d, Look(b, l)), true) <==> Spent(d.v, l) || Beside(d.v, b, l)
  {
    var looked := Does(d, Look(b, l));
    Reached(before, d, true);
    if Spent(d.v, l) || Beside(d.v, b, l) {
      ActionKeeps(d, Look(b, l), true);
      AlwaysByInv(looked, true);
    } else {
      Weaken(d, true);
      LookKeeps(d, b, l, false);
      assert PunchOk(d, b, true);
      forall c | c in d.v.copies && Reaches(d.v.log, c.lsn, d.v.log[l].key) ensures c.lsn <= l {
        assert Copy(c.seg, c.lsn) == c;
      }
      var xs, e := UnspentLoses(looked, b, l);
      assert !IndexWhole(e);
    }
  }

  /**
   Main result: the flush of a punch may end, for all that may follow with crashes anywhere in it, exactly if every
   spent put it took is covered, where what is durable and newer for those is published or lies beside them.
   */
  lemma EndsExactlyCovering(before: seq<Action>, d: Disk, b: int)
    requires IsHistory(Start, before, d, true) && Can(d, EndAsk(b))
    requires forall l, c :: (l in d.punches[b].dead && l in d.v.log && c in d.v.durable && c.lsn > l
                             && Reaches(d.v.log, c.lsn, d.v.log[l].key)) ==> c.lsn in d.v.published || c.seg == b
    ensures AlwaysWhole(Does(d, EndAsk(b)), true) <==> Covering(d, b)
  {
    Reached(before, d, true);
    if Covering(d, b) {
      ActionKeeps(d, EndAsk(b), true);
      AlwaysByInv(Does(d, EndAsk(b)), true);
    } else {
      var l :| l in d.punches[b].dead && Copy(b, l) in d.v.copies && l in d.v.log && d.v.log[l].op.Put? && Spent(d.v, l)
        && !Shielded(d.v, l, d.v.durable) && !Beside(d.v, b, l);
      assert !Buried(d.v, Copy(b, l)) by {
        forall c | c in d.v.durable && Reaches(d.v.log, c.lsn, d.v.log[l].key) ensures c.lsn <= l {
          assert !Shields(d.v, l, d.v.durable, c);
        }
      }
      var xs, e := UncoveredLoses(d, b, l);
      assert !IndexWhole(e);
    }
  }

  // ---- newer records that are not published ----

  /**
   A newer delete that was given up unpublished in another segment goes on to shadow the put: a pass over that segment
   carries it, unless it copied the put itself or a newer put is published. A newer put given up so is not copied,
   and goes with its segment.
   */
  lemma DeleteIsCarried(v: Volume, x: int, m: int, b: int, l: int)
    requires Inv(v) && ToDo(v, x, m) && !v.log[m].op.Put? && b != x && Copy(b, l) in v.copies && l < m
    requires l in v.log && v.log[l].op.Put? && Reaches(v.log, m, v.log[l].key)
    requires l !in v.passes[x].copied && !Spent(v, l)
    ensures ShouldCarry(v, m, v.passes[x].floor)
  {
    assert PassOk(v, x) && Copy(b, l).lsn == l;
    if v.log[m].op.Delete? {
      forall p ensures !(p > m && Newest(v.log, v.published, v.log[m].key, p)) {}
    }
  }
}
