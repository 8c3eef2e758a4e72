/**
 What every step of a volume keeps. A published version is covered by a published record no pass is done with,
 or by a delete its pass dropped with nothing older outside the segment, or nothing that old can turn up any
 more. Records that landed and were given up unpublished stand beside them and are promised nothing.
 */
module Compaction {
  import opened Volume

  // ---- the invariant ----

  ghost predicate Basics(v: Volume) {
    && (forall l :: l in v.log ==> l < v.next)
    && (forall c :: c in v.copies ==> c.lsn in v.log)
    && v.published <= v.done && (forall l :: l in v.done ==> l in v.log)
    && (forall l :: l in v.published ==> l in v.at)
    && v.durable <= v.copies
  }

  predicate Begun(v: Volume, b: int) { b in v.passes && !v.passes[b].flush.NotAsked? }

  /** A copy that has landed and waits for the repoint; one that is no longer the newest put may go. */
  ghost predicate PendingOk(v: Volume, a: int, l: int)
    requires a in v.passes && l in v.passes[a].pending
  {
    && Copy(a, l) in v.copies && l in v.published && l in v.log && v.log[l].op.Put? && l !in v.passes[a].handled
    && (Newest(v.log, v.published, v.log[l].key, l) ==>
          && Copy(v.passes[a].pending[l], l) in v.copies && v.passes[a].pending[l] !in v.passes
          && l in v.at && v.at[l] == a)
  }

  /** What a pass has seen to: nothing below its floor stands elsewhere but what it copied itself. */
  ghost predicate PassOk(v: Volume, a: int)
    requires a in v.passes
  {
    var p := v.passes[a];
    && a !in v.open && p.floor <= v.next
    && (forall l :: Copy(a, l) in v.copies ==> l in v.done && Copy(a, l) in v.durable)
    && (forall l :: InFlight(v, l) ==> p.floor <= l)
    && (forall c :: c in v.copies && c.seg != a && c.lsn < p.floor ==> c.lsn in p.copied)
    && (forall l :: l in p.copied ==> l in v.log && v.log[l].op.Put?)
    && (forall l, h :: (l in p.copied && l in v.log && h in v.published && Copy(a, h) in v.copies
                        && Reaches(v.log, h, v.log[l].key)) ==> h <= l)
    && (forall l {:trigger PendingOk(v, a, l)} :: l in p.pending ==> PendingOk(v, a, l))
    && (Begun(v, a) ==> AllHandled(v, a) && p.flush.stamp < v.clock)
  }

  ghost predicate PassesOk(v: Volume) {
    forall a {:trigger PassOk(v, a)} :: a in v.passes ==> PassOk(v, a)
  }

  /** A copy no pass over its segment is done with. */
  ghost predicate OwedAt(v: Volume, b: int, l: int) {
    Copy(b, l) in v.copies && !(b in v.passes && l in v.passes[b].handled)
  }

  ghost predicate HomesOk(v: Volume) {
    forall p {:trigger Newest(v.log, v.published, v.log[p].key, p)} ::
      p in v.log && v.log[p].op.Put? && Newest(v.log, v.published, v.log[p].key, p) ==>
        p in v.at && OwedAt(v, v.at[p], p)
  }

  /** A published record at least this new that reaches the key, in a copy no pass is done with. */
  ghost predicate Covers(v: Volume, p: int, k: Key, c: Copy) {
    OwedAt(v, c.seg, c.lsn) && c.lsn >= p && c.lsn in v.published && Reaches(v.log, c.lsn, k)
  }

  /** A published delete its pass dropped, with nothing it shadows outside the pass's segment. */
  ghost predicate Gone(v: Volume, a: int, m: int, k: Key) {
    && a in v.passes && Copy(a, m) in v.copies && m in v.published && Reaches(v.log, m, k) && !v.log[m].op.Put?
    && m < v.passes[a].floor
    && forall c :: c in v.copies && c.seg != a && Reaches(v.log, c.lsn, k) ==> c.lsn > m
  }

  /** Nothing this old reaches the key any more, nor can land. */
  ghost predicate Over(v: Volume, p: int, k: Key) {
    && (forall c :: c in v.copies && Reaches(v.log, c.lsn, k) ==> c.lsn > p)
    && (forall l :: InFlight(v, l) ==> l > p)
  }

  ghost predicate Kept(v: Volume, p: int, k: Key) {
    (exists c :: Covers(v, p, k, c)) || (exists a, g :: g >= p && Gone(v, a, g, k)) || Over(v, p, k)
  }

  ghost predicate VersionsOk(v: Volume) {
    forall p, k {:trigger Reaches(v.log, p, k)} :: p in v.published && Reaches(v.log, p, k) ==> Kept(v, p, k)
  }

  ghost predicate Inv(v: Volume) {
    Basics(v) && PassesOk(v) && HomesOk(v) && VersionsOk(v)
  }

  // ---- what carries over ----

  /** No copy is handled anew, no dropped delete comes to shadow anything, and nothing old comes back. */
  ghost predicate GoesOn(v: Volume, w: Volume) {
    && (forall b, m {:trigger OwedAt(v, b, m)} {:trigger OwedAt(w, b, m)} :: OwedAt(v, b, m) ==> OwedAt(w, b, m))
    && (forall a, m, k {:trigger Gone(v, a, m, k)} {:trigger Gone(w, a, m, k)} :: Gone(v, a, m, k) ==> Gone(w, a, m, k))
    && (forall p, k {:trigger Over(v, p, k)} {:trigger Over(w, p, k)} :: Over(v, p, k) ==> Over(w, p, k))
  }

  lemma KeptGoesOn(v: Volume, w: Volume, p: int, k: Key)
    requires Kept(v, p, k) && GoesOn(v, w) && w.log == v.log && v.published <= w.published
    ensures Kept(w, p, k)
  {
    if c :| Covers(v, p, k, c) {
      assert OwedAt(w, c.seg, c.lsn);
      assert Covers(w, p, k, c);
    } else if a, g :| g >= p && Gone(v, a, g, k) {
      assert Gone(w, a, g, k);
    } else {
      assert Over(w, p, k);
    }
  }

  lemma VersionsGoOn(v: Volume, w: Volume)
    requires VersionsOk(v) && GoesOn(v, w) && w.log == v.log && w.published == v.published
    ensures VersionsOk(w)
  {
    forall p, k | p in w.published && Reaches(w.log, p, k) ensures Kept(w, p, k) {
      assert Reaches(v.log, p, k);
      KeptGoesOn(v, w, p, k);
    }
  }

  lemma HomesGoOn(v: Volume, w: Volume)
    requires HomesOk(v) && w.log == v.log && w.published == v.published && w.at == v.at
    requires forall b, m {:trigger OwedAt(v, b, m)} :: OwedAt(v, b, m) ==> OwedAt(w, b, m)
    ensures HomesOk(w)
  {
    forall p | p in w.log && w.log[p].op.Put? && Newest(w.log, w.published, w.log[p].key, p)
      ensures p in w.at && OwedAt(w, w.at[p], p)
    {
      assert OwedAt(v, v.at[p], p);
    }
  }

  /** A pass that is done with no less, waits for no more, and starts no flush. */
  ghost predicate PassStays(v: Volume, w: Volume, a: int) {
    && a in v.passes && a in w.passes && a !in w.open
    && w.passes[a].floor == v.passes[a].floor && w.passes[a].copied == v.passes[a].copied
    && w.passes[a].flush == v.passes[a].flush && v.passes[a].handled <= w.passes[a].handled
    && (forall l :: l in w.passes[a].handled && l !in v.passes[a].handled ==> l !in w.passes[a].pending)
    && (forall l :: l in w.passes[a].pending ==>
          l in v.passes[a].pending && w.passes[a].pending[l] == v.passes[a].pending[l])
  }

  /** Records stay, more may land, but nothing comes to a pass's segment, nor anything old beside it. */
  ghost predicate Grows(v: Volume, w: Volume) {
    && w.log == v.log && w.next == v.next && v.copies <= w.copies && v.durable <= w.durable && v.clock <= w.clock
    && v.done <= w.done && v.published <= w.published && w.passes.Keys == v.passes.Keys
  }

  lemma PassGoesOn(v: Volume, w: Volume, a: int)
    requires a in v.passes && PassOk(v, a) && PassStays(v, w, a) && Grows(v, w)
    requires forall l :: l in w.published && Copy(a, l) in v.copies ==> l in v.published
    requires forall c :: c in w.copies && c !in v.copies ==>
      c.seg != a && (c.lsn < v.passes[a].floor ==> c.lsn in v.passes[a].copied)
    requires forall l :: l in w.passes[a].pending && l in v.at && v.at[l] == a ==> l in w.at && w.at[l] == a
    ensures PassOk(w, a)
  {
    assert forall x :: InFlight(w, x) ==> InFlight(v, x);
    forall l | l in w.passes[a].pending ensures PendingOk(w, a, l) {
      assert PendingOk(v, a, l);
      PendingGoesOn(v, w, a, l);
    }
    forall l | Copy(a, l) in w.copies ensures Copy(a, l) in v.copies {}
    if Begun(w, a) {
      assert Begun(v, a) && v.passes[a].pending.Keys == {};
      assert forall l :: l in w.passes[a].pending.Keys ==> l in v.passes[a].pending.Keys;
    }
  }

  lemma PendingGoesOn(v: Volume, w: Volume, a: int, l: int)
    requires a in v.passes && l in v.passes[a].pending && PendingOk(v, a, l)
    requires a in w.passes && l in w.passes[a].pending && w.passes[a].pending[l] == v.passes[a].pending[l]
    requires w.log == v.log && v.published <= w.published && v.copies <= w.copies
    requires l !in w.passes[a].handled && w.passes.Keys == v.passes.Keys
    requires l in v.at && v.at[l] == a ==> l in w.at && w.at[l] == a
    ensures PendingOk(w, a, l)
  {
    if Newest(w.log, w.published, w.log[l].key, l) { assert Newest(v.log, v.published, v.log[l].key, l); }
  }

  lemma PassesClosed(v: Volume)
    requires PassesOk(v)
    ensures forall x :: x in v.passes ==> x !in v.open
  {
    forall x | x in v.passes ensures x !in v.open { assert PassOk(v, x); }
  }

  // ---- each step keeps it ----

  lemma DrawKeeps(v: Volume, r: Record)
    requires Inv(v)
    ensures Inv(Apply(v, Draw(r)))
  {
    var w := Apply(v, Draw(r));
    assert v.next !in v.log;
    assert forall l, k :: l in v.log ==> (Reaches(w.log, l, k) <==> Reaches(v.log, l, k));
    assert forall l :: InFlight(w, l) ==> InFlight(v, l) || l == v.next;
    assert forall k, l :: l in v.log ==> (Newest(w.log, w.published, k, l) <==> Newest(v.log, v.published, k, l));
    forall a | a in w.passes ensures PassOk(w, a) {
      assert PassOk(v, a);
      forall l | l in w.passes[a].pending ensures PendingOk(w, a, l) { assert PendingOk(v, a, l); }
    }
    forall p | p in w.log && w.log[p].op.Put? && Newest(w.log, w.published, w.log[p].key, p)
      ensures p in w.at && OwedAt(w, w.at[p], p)
    {
      assert Newest(v.log, v.published, v.log[p].key, p);
      assert OwedAt(v, v.at[p], p);
    }
    DrawKeepsVersions(v, w, r);
  }

  lemma DrawKeepsVersions(v: Volume, w: Volume, r: Record)
    requires Inv(v) && w == Apply(v, Draw(r)) && v.next !in v.log
    ensures VersionsOk(w)
  {
    assert forall l, k :: l in v.log ==> (Reaches(w.log, l, k) <==> Reaches(v.log, l, k));
    assert forall l :: InFlight(w, l) ==> InFlight(v, l) || l == v.next;
    forall a, g, k | Gone(v, a, g, k) ensures Gone(w, a, g, k) {}
    forall p, k | p in w.published && Reaches(w.log, p, k) ensures Kept(w, p, k) {
      assert Reaches(v.log, p, k) && Kept(v, p, k);
      if c :| Covers(v, p, k, c) {
        assert OwedAt(w, c.seg, c.lsn) && Covers(w, p, k, c);
      } else if a, g :| g >= p && Gone(v, a, g, k) {
        assert Gone(w, a, g, k);
      } else {
        assert Over(v, p, k) && Over(w, p, k);
      }
    }
  }

  /** Giving up a number, opening or rolling a segment and syncing change nothing the invariant rests on. */
  lemma QuietKeeps(v: Volume, w: Volume)
    requires Inv(v)
    requires w == v.(done := w.done, open := w.open, durable := w.durable)
    requires v.done <= w.done && (forall l :: l in w.done ==> l in v.log)
    requires v.durable <= w.durable <= v.copies
    requires forall a :: a in v.passes ==> a !in w.open
    ensures Inv(w)
  {
    assert forall l :: InFlight(w, l) ==> InFlight(v, l);
    forall a | a in w.passes ensures PassOk(w, a) {
      assert PassOk(v, a);
      PassGoesOn(v, w, a);
    }
    HomesGoOn(v, w);
    VersionsGoOn(v, w);
  }

  lemma LandKeeps(v: Volume, l: int, b: int)
    requires Inv(v) && Enabled(v, Land(l, b))
    ensures Inv(Apply(v, Land(l, b)))
  {
    var w := Apply(v, Land(l, b));
    assert forall x :: InFlight(w, x) <==> InFlight(v, x);
    PassesClosed(v);
    forall a | a in w.passes ensures PassOk(w, a) {
      assert PassOk(v, a);
      PassGoesOn(v, w, a);
    }
    HomesGoOn(v, w);
    forall a, m, k | Gone(v, a, m, k) ensures Gone(w, a, m, k) { assert PassOk(v, a); }
    VersionsGoOn(v, w);
  }

  lemma PublishKeeps(v: Volume, l: int, b: int)
    requires Inv(v) && Enabled(v, Publish(l, b))
    ensures Inv(Apply(v, Publish(l, b)))
  {
    var w := Apply(v, Publish(l, b));
    assert forall x :: InFlight(w, x) ==> InFlight(v, x);
    forall x | x in v.passes ensures Copy(x, l) !in v.copies { assert PassOk(v, x); }
    assert OwedAt(w, b, l);
    forall a | a in w.passes ensures PassOk(w, a) {
      assert PassOk(v, a);
      forall x | x in w.passes[a].pending ensures x != l { assert PendingOk(v, a, x); }
      PassGoesOn(v, w, a);
    }
    forall p, k | p in w.published && Reaches(w.log, p, k) ensures Kept(w, p, k) {
      if p == l {
        assert Covers(w, p, k, Copy(b, l));
      } else {
        assert Reaches(v.log, p, k);
        KeptGoesOn(v, w, p, k);
      }
    }
    forall p | p in w.log && w.log[p].op.Put? && Newest(w.log, w.published, w.log[p].key, p)
      ensures p in w.at && OwedAt(w, w.at[p], p)
    {
      if p != l {
        assert Newest(v.log, v.published, v.log[p].key, p);
        assert OwedAt(v, v.at[p], p);
      }
    }
  }

  lemma StartPassKeeps(v: Volume, b: int, settled: int, floor: int)
    requires Inv(v) && Enabled(v, StartPass(b, settled, floor))
    ensures Inv(Apply(v, StartPass(b, settled, floor)))
  {
    var w := Apply(v, StartPass(b, settled, floor));
    assert forall x :: InFlight(w, x) <==> InFlight(v, x);
    forall a | a in w.passes ensures PassOk(w, a) {
      if a != b {
        assert PassOk(v, a);
        forall l | l in w.passes[a].pending ensures PendingOk(w, a, l) {
          assert PendingOk(v, a, l);
          assert !AwaitedBy(v, b, a, l);
        }
      }
    }
    HomesGoOn(v, w);
    VersionsGoOn(v, w);
  }

  lemma CopyPastGone(v: Volume, a: int, l: int, t: int, x: int, m: int, k: Key)
    requires ToDo(v, a, l) && PassOk(v, a) && Gone(v, x, m, k) && PassOk(v, x) && Reaches(v.log, l, k)
    requires Live(v, l, a) || (!v.log[l].op.Put? && l >= v.passes[a].floor)
    ensures l > m
  {
    if x == a && v.log[l].op.Put? {
      assert m in v.published && Reaches(v.log, m, v.log[l].key);
    } else if x != a {
      assert Copy(a, l).lsn == l && Copy(a, l) in v.copies;
    }
  }

  /** A copy of a record its segment holds disturbs no dropped delete, if it is live or a delete past the floor. */
  lemma CopyKeepsGone(v: Volume, a: int, l: int, t: int)
    requires Inv(v) && ToDo(v, a, l) && t in v.open
    requires Live(v, l, a) || (!v.log[l].op.Put? && l >= v.passes[a].floor)
    ensures forall x, m, k {:trigger Gone(v, x, m, k)} :: Gone(v, x, m, k) && Reaches(v.log, l, k) && t != x ==> l > m
  {
    forall x, m, k {:trigger Gone(v, x, m, k)} | Gone(v, x, m, k) && Reaches(v.log, l, k) && t != x ensures l > m {
      assert PassOk(v, x) && PassOk(v, a);
      CopyPastGone(v, a, l, t, x, m, k);
    }
  }

  /** Landing another copy in an open segment keeps what does not speak of the pass itself. */
  lemma CopyKeepsVersions(v: Volume, w: Volume, a: int, l: int, t: int)
    requires Inv(v) && Copy(a, l) in v.copies && a in v.passes && t in v.open && t !in v.passes
    requires a in w.passes && w == v.(copies := v.copies + {Copy(t, l)}, passes := v.passes[a := w.passes[a]])
    requires w.passes[a] == v.passes[a].(pending := w.passes[a].pending, copied := w.passes[a].copied)
    requires forall x, m, k {:trigger Gone(v, x, m, k)} :: Gone(v, x, m, k) && Reaches(v.log, l, k) && t != x ==> l > m
    ensures HomesOk(w) && VersionsOk(w)
  {
    assert forall x :: InFlight(w, x) <==> InFlight(v, x);
    HomesGoOn(v, w);
    forall x, m, k | Gone(v, x, m, k) ensures Gone(w, x, m, k) {}
    forall p, k | Over(v, p, k) ensures Over(w, p, k) { assert Reaches(v.log, l, k) ==> Copy(a, l).lsn > p; }
    VersionsGoOn(v, w);
  }

  lemma CopyLiveKeepsPasses(v: Volume, a: int, l: int, t: int)
    requires Inv(v) && Enabled(v, CopyLive(a, l, t))
    ensures PassesOk(Apply(v, CopyLive(a, l, t)))
  {
    var w := Apply(v, CopyLive(a, l, t));
    assert forall x :: InFlight(w, x) <==> InFlight(v, x);
    assert PassOk(v, a);
    PassesClosed(v);
    forall x | x in w.passes ensures PassOk(w, x) {
      assert PassOk(v, x);
      if x != a {
        PassGoesOn(v, w, x);
      } else {
        forall y | y in w.passes[a].pending ensures PendingOk(w, a, y) { if y != l { PendingGoesOn(v, w, a, y); } }
      }
    }
  }

  lemma CopyLiveKeeps(v: Volume, a: int, l: int, t: int)
    requires Inv(v) && Enabled(v, CopyLive(a, l, t))
    ensures Inv(Apply(v, CopyLive(a, l, t)))
  {
    var w := Apply(v, CopyLive(a, l, t));
    CopyLiveKeepsPasses(v, a, l, t);
    CopyKeepsGone(v, a, l, t);
    PassesClosed(v);
    CopyKeepsVersions(v, w, a, l, t);
  }

  /** What this record covers is covered elsewhere, or by a delete dropped with all it shadows. */
  ghost predicate Elsewhere(v: Volume, a: int, l: int, k: Key) {
    (exists c :: c != Copy(a, l) && Covers(v, l, k, c)) || (exists x, g :: g >= l && Gone(v, x, g, k))
  }

  /** A record may be handled once all it covers is covered elsewhere, and the index does not point at it. */
  lemma HandleKeeps(v: Volume, a: int, l: int)
    requires Inv(v) && ToDo(v, a, l)
    requires v.log[l].op.Put? && Newest(v.log, v.published, v.log[l].key, l) ==> l in v.at && v.at[l] != a
    requires l in v.published ==> forall k {:trigger Reaches(v.log, l, k)} ::
      Reaches(v.log, l, k) ==> Elsewhere(v, a, l, k)
    ensures Inv(Handle(v, a, l))
  {
    var w := Handle(v, a, l);
    assert forall x :: InFlight(w, x) <==> InFlight(v, x);
    forall x | x in w.passes ensures PassOk(w, x) {
      assert PassOk(v, x);
      PassGoesOn(v, w, x);
    }
    forall p | p in w.log && w.log[p].op.Put? && Newest(w.log, w.published, w.log[p].key, p)
      ensures p in w.at && OwedAt(w, w.at[p], p)
    {
      assert OwedAt(v, v.at[p], p);
    }
    forall x, m, k | Gone(v, x, m, k) ensures Gone(w, x, m, k) {}
    HandleKeepsVersions(v, w, a, l);
  }

  lemma HandleKeepsVersions(v: Volume, w: Volume, a: int, l: int)
    requires Inv(v) && ToDo(v, a, l) && w == Handle(v, a, l)
    requires l in v.published ==> forall k {:trigger Reaches(v.log, l, k)} ::
      Reaches(v.log, l, k) ==> Elsewhere(v, a, l, k)
    requires forall x, m, k {:trigger Gone(v, x, m, k)} :: Gone(v, x, m, k) ==> Gone(w, x, m, k)
    ensures VersionsOk(w)
  {
    assert forall x :: InFlight(w, x) <==> InFlight(v, x);
    forall p, k | p in w.published && Reaches(w.log, p, k) ensures Kept(w, p, k) {
      assert Reaches(v.log, p, k) && Kept(v, p, k);
      if c :| Covers(v, p, k, c) {
        if c != Copy(a, l) {
          assert Covers(w, p, k, c);
        } else {
          assert Reaches(v.log, l, k) && Elsewhere(v, a, l, k);
          if d :| d != Copy(a, l) && Covers(v, l, k, d) { assert Covers(w, p, k, d); }
        }
      } else if x, g :| g >= p && Gone(v, x, g, k) {
        assert Gone(w, x, g, k);
      } else {
        assert Over(v, p, k) && Over(w, p, k);
      }
    }
  }

  /** Some published version of a key is its newest. */
  lemma {:induction false} NewestExists(log: map<int, Record>, published: set<int>, k: Key, p: int) returns (n: int)
    requires p in published && Reaches(log, p, k)
    ensures Newest(log, published, k, n) && n >= p
    decreases |published|
  {
    if q :| q in published && Reaches(log, q, k) && q > p {
      n := NewestExists(log, published - {p}, k, q);
      assert forall r :: r in published && r != p ==> r in published - {p};
    } else {
      n := p;
    }
  }

  /** A landed record that a newer published version replaces covers nothing that is not covered elsewhere. */
  lemma OlderIsElsewhere(v: Volume, a: int, l: int, k: Key, p: int)
    requires Inv(v) && Copy(a, l) in v.copies && Reaches(v.log, l, k) && p in v.published && Reaches(v.log, p, k)
    requires p > l
    ensures Elsewhere(v, a, l, k)
  {
    var n := NewestExists(v.log, v.published, k, p);
    assert Reaches(v.log, Copy(a, l).lsn, k);
    assert Kept(v, n, k) && !Over(v, n, k);
    if c :| Covers(v, n, k, c) {
      assert c != Copy(a, l) && Covers(v, l, k, c);
    }
  }

  lemma SkipDeadKeeps(v: Volume, a: int, l: int)
    requires Inv(v) && Enabled(v, SkipDead(a, l))
    ensures Inv(Apply(v, SkipDead(a, l)))
  {
    if l in v.published {
      var k := v.log[l].key;
      assert Elsewhere(v, a, l, k) by {
        if Newest(v.log, v.published, k, l) {
          assert OwedAt(v, v.at[l], l);
          assert Covers(v, l, k, Copy(v.at[l], l)) && Copy(v.at[l], l) != Copy(a, l);
        } else {
          var p :| p in v.published && Reaches(v.log, p, k) && p > l;
          OlderIsElsewhere(v, a, l, k, p);
        }
      }
      assert forall j :: Reaches(v.log, l, j) ==> j == k;
    }
    HandleKeeps(v, a, l);
  }

  lemma DropKeeps(v: Volume, a: int, l: int)
    requires Inv(v) && Enabled(v, Drop(a, l))
    ensures Inv(Apply(v, Drop(a, l)))
  {
    assert PassOk(v, a);
    if l in v.published {
      forall k | Reaches(v.log, l, k) ensures Elsewhere(v, a, l, k) {
        if l < v.passes[a].floor {
          assert Gone(v, a, l, k);
        } else {
          var p :| p > l && p in v.log && v.log[p].op.Put? && Newest(v.log, v.published, v.log[l].key, p);
          OlderIsElsewhere(v, a, l, k, p);
        }
      }
    }
    HandleKeeps(v, a, l);
  }

  lemma CarryKeeps(v: Volume, a: int, l: int, t: int)
    requires Inv(v) && Enabled(v, Carry(a, l, t))
    ensures Inv(Apply(v, Carry(a, l, t)))
  {
    var w := v.(copies := v.copies + {Copy(t, l)});
    CopyKeepsGone(v, a, l, t);
    assert PassOk(v, a);
    PassesClosed(v);
    assert w.passes == v.passes[a := w.passes[a]];
    CopyKeepsVersions(v, w, a, l, t);
    assert forall x :: InFlight(w, x) <==> InFlight(v, x);
    forall x | x in w.passes ensures PassOk(w, x) {
      assert PassOk(v, x);
      PassGoesOn(v, w, x);
    }
    assert OwedAt(w, t, l);
    if l in w.published {
      forall k | Reaches(w.log, l, k) ensures Elsewhere(w, a, l, k) { assert Covers(w, l, k, Copy(t, l)); }
    }
    HandleKeeps(w, a, l);
  }

  lemma RepointKeeps(v: Volume, a: int, l: int)
    requires Inv(v) && Enabled(v, Repoint(a, l))
    ensures Inv(Apply(v, Repoint(a, l)))
  {
    var w := Apply(v, Repoint(a, l));
    assert forall x :: InFlight(w, x) <==> InFlight(v, x);
    assert PassOk(v, a) && PendingOk(v, a, l);
    forall x | x in w.passes ensures PassOk(w, x) {
      assert PassOk(v, x);
      PassGoesOn(v, w, x);
    }
    RepointKeepsHomes(v, w, a, l);
    forall x, m, k | Gone(v, x, m, k) ensures Gone(w, x, m, k) {}
    RepointKeepsVersions(v, w, a, l);
  }

  lemma RepointKeepsHomes(v: Volume, w: Volume, a: int, l: int)
    requires Inv(v) && Enabled(v, Repoint(a, l)) && w == Apply(v, Repoint(a, l)) && PendingOk(v, a, l)
    ensures HomesOk(w)
  {
    var t := v.passes[a].pending[l];
    forall q | q in w.log && w.log[q].op.Put? && Newest(w.log, w.published, w.log[q].key, q)
      ensures q in w.at && OwedAt(w, w.at[q], q)
    {
      assert OwedAt(v, v.at[q], q);
      if q == l { assert OwedAt(w, t, l); }
    }
  }

  lemma RepointKeepsVersions(v: Volume, w: Volume, a: int, l: int)
    requires Inv(v) && Enabled(v, Repoint(a, l)) && w == Apply(v, Repoint(a, l)) && PendingOk(v, a, l)
    requires forall x, m, k {:trigger Gone(v, x, m, k)} :: Gone(v, x, m, k) ==> Gone(w, x, m, k)
    ensures VersionsOk(w)
  {
    var key := v.log[l].key;
    assert Elsewhere(v, a, l, key) by {
      if Newest(v.log, v.published, key, l) {
        assert Covers(v, l, key, Copy(v.passes[a].pending[l], l));
      } else {
        var p :| p in v.published && Reaches(v.log, p, key) && p > l;
        OlderIsElsewhere(v, a, l, key, p);
      }
    }
    assert forall j :: Reaches(v.log, l, j) ==> j == key;
    assert forall x :: InFlight(w, x) <==> InFlight(v, x);
    forall p, k | p in w.published && Reaches(w.log, p, k) ensures Kept(w, p, k) {
      assert Reaches(v.log, p, k) && Kept(v, p, k);
      if c :| Covers(v, p, k, c) {
        if c != Copy(a, l) {
          assert Covers(w, p, k, c);
        } else if d :| d != Copy(a, l) && Covers(v, l, k, d) {
          assert Covers(w, p, k, d);
        }
      } else if x, g :| g >= p && Gone(v, x, g, k) {
        assert Gone(w, x, g, k);
      } else {
        assert Over(v, p, k) && Over(w, p, k);
      }
    }
  }

  lemma FlushKeepsPasses(v: Volume, w: Volume, a: int)
    requires Inv(v) && a in v.passes && a in w.passes && v.clock <= w.clock
    requires w == v.(passes := v.passes[a := v.passes[a].(flush := w.passes[a].flush)], clock := w.clock)
    requires Begun(w, a) ==> AllHandled(v, a) && w.passes[a].flush.stamp < w.clock
    ensures PassesOk(w)
  {
    assert forall x :: InFlight(w, x) <==> InFlight(v, x);
    forall x | x in w.passes ensures PassOk(w, x) {
      assert PassOk(v, x);
      if x != a {
        PassGoesOn(v, w, x);
      } else {
        forall y | y in w.passes[x].pending ensures PendingOk(w, x, y) { PendingGoesOn(v, w, x, y); }
      }
    }
  }

  lemma FlushKeeps(v: Volume, step: Step)
    requires Inv(v) && Possible(v, step) && (step.AskFlush? || step.EndFlush?)
    ensures Inv(Apply(v, step))
  {
    var w := Apply(v, step);
    assert forall x :: InFlight(w, x) <==> InFlight(v, x);
    assert PassOk(v, step.seg);
    FlushKeepsPasses(v, w, step.seg);
    HomesGoOn(v, w);
    forall x, m, k | Gone(v, x, m, k) ensures Gone(w, x, m, k) {}
    VersionsGoOn(v, w);
  }

  lemma RetireKeeps(v: Volume, a: int)
    requires Inv(v) && Enabled(v, Retire(a))
    ensures Inv(Apply(v, Retire(a)))
  {
    var w := Apply(v, Retire(a));
    assert PassOk(v, a);
    assert forall x :: InFlight(w, x) <==> InFlight(v, x);
    forall x | x in w.passes ensures PassOk(w, x) {
      assert PassOk(v, x);
      forall y | y in w.passes[x].pending ensures PendingOk(w, x, y) { assert PendingOk(v, x, y); }
    }
    forall q | q in w.log && w.log[q].op.Put? && Newest(w.log, w.published, w.log[q].key, q)
      ensures q in w.at && OwedAt(w, w.at[q], q)
    {
      assert OwedAt(v, v.at[q], q);
    }
    forall p, k | p in w.published && Reaches(w.log, p, k) ensures Kept(w, p, k) {
      assert Reaches(v.log, p, k) && Kept(v, p, k);
      RetireKeepsVersion(v, a, p, k);
    }
  }

  /** A delete that was dropped goes on, or is over with its segment. */
  lemma RetireKeepsGone(v: Volume, a: int, p: int, k: Key, x: int, g: int)
    requires PassesOk(v) && Possible(v, Retire(a)) && g >= p && Gone(v, x, g, k)
    ensures Kept(Apply(v, Retire(a)), p, k)
  {
    var w := Apply(v, Retire(a));
    assert PassOk(v, x);
    assert forall y :: InFlight(w, y) <==> InFlight(v, y);
    if x == a { assert Over(w, p, k); } else { assert Gone(w, x, g, k); }
  }

  /** What a retire leaves of a published version: what covered it, or nothing that old. */
  lemma RetireKeepsVersion(v: Volume, a: int, p: int, k: Key)
    requires PassesOk(v) && Possible(v, Retire(a)) && Kept(v, p, k)
    ensures Kept(Apply(v, Retire(a)), p, k)
  {
    var w := Apply(v, Retire(a));
    if c :| Covers(v, p, k, c) {
      assert PassOk(v, a) && Copy(c.seg, c.lsn) == c;
      assert Covers(w, p, k, c);
    } else if x, g :| g >= p && Gone(v, x, g, k) {
      RetireKeepsGone(v, a, p, k, x, g);
    } else {
      assert forall y :: InFlight(w, y) <==> InFlight(v, y);
      assert Over(w, p, k);
    }
  }

  lemma AbandonKeeps(v: Volume, a: int)
    requires Inv(v) && Enabled(v, Abandon(a))
    ensures Inv(Apply(v, Abandon(a)))
  {
    var w := Apply(v, Abandon(a));
    assert forall x :: InFlight(w, x) <==> InFlight(v, x);
    forall x | x in w.passes ensures PassOk(w, x) {
      assert PassOk(v, x);
      forall y | y in w.passes[x].pending ensures PendingOk(w, x, y) { assert PendingOk(v, x, y); }
    }
    HomesGoOn(v, w);
    forall p, k | p in w.published && Reaches(w.log, p, k) ensures Kept(w, p, k) {
      assert Reaches(v.log, p, k) && Kept(v, p, k);
      if c :| Covers(v, p, k, c) {
        assert Covers(w, p, k, c);
      } else if x, g :| g >= p && Gone(v, x, g, k) {
        if x == a { assert Covers(w, p, k, Copy(a, g)); } else { assert Gone(w, x, g, k); }
      } else {
        assert Over(v, p, k) && Over(w, p, k);
      }
    }
  }

  lemma CrashKeeps(v: Volume, kept: set<Copy>, found: map<int, int>, next: int)
    requires Inv(v) && Enabled(v, Crash(kept, found, next))
    ensures Inv(Apply(v, Crash(kept, found, next)))
  {
    var w := Apply(v, Crash(kept, found, next));
    forall p, k | p in w.published && Reaches(w.log, p, k) ensures Kept(w, p, k) {
      assert Covers(w, p, k, Copy(found[p], p));
    }
  }

  // ---- every step and every run keeps it ----

  lemma StepKeeps(v: Volume, step: Step)
    requires Inv(v) && Enabled(v, step)
    ensures Inv(Apply(v, step))
  {
    if OfPass(step) {
      PassStepKeeps(v, step);
    } else if step.GiveUp? || step.Open? || step.Roll? || step.Sync? {
      QuietStepKeeps(v, step);
    } else if step.Draw? {
      DrawKeeps(v, step.r);
    } else if step.Land? {
      LandKeeps(v, step.lsn, step.seg);
    } else if step.Publish? {
      PublishKeeps(v, step.lsn, step.seg);
    } else {
      CrashKeeps(v, step.kept, step.found, step.next);
    }
  }

  predicate OfPass(step: Step) {
    || step.StartPass? || step.CopyLive? || step.Repoint? || step.SkipDead? || step.Carry? || step.Drop?
    || step.AskFlush? || step.EndFlush? || step.Retire? || step.Abandon?
  }

  lemma PassStepKeeps(v: Volume, step: Step)
    requires Inv(v) && Enabled(v, step) && OfPass(step)
    ensures Inv(Apply(v, step))
  {
    if step.StartPass? { StartPassKeeps(v, step.seg, step.settled, step.floor); }
    if step.CopyLive? { CopyLiveKeeps(v, step.seg, step.lsn, step.dest); }
    if step.Repoint? { RepointKeeps(v, step.seg, step.lsn); }
    if step.SkipDead? { SkipDeadKeeps(v, step.seg, step.lsn); }
    if step.Carry? { CarryKeeps(v, step.seg, step.lsn, step.dest); }
    if step.Drop? { DropKeeps(v, step.seg, step.lsn); }
    if step.AskFlush? || step.EndFlush? { FlushKeeps(v, step); }
    if step.Retire? { RetireKeeps(v, step.seg); }
    if step.Abandon? { AbandonKeeps(v, step.seg); }
  }

  lemma QuietStepKeeps(v: Volume, step: Step)
    requires Inv(v) && Enabled(v, step) && (step.GiveUp? || step.Open? || step.Roll? || step.Sync?)
    ensures Inv(Apply(v, step))
  {
    forall a | a in v.passes ensures a !in Apply(v, step).open { assert PassOk(v, a); }
    QuietKeeps(v, Apply(v, step));
  }

  lemma {:induction false} RunKeeps(v: Volume, steps: seq<Step>, w: Volume)
    requires Inv(v) && IsRun(v, steps, w, Held)
    ensures Inv(w)
    decreases |steps|
  {
    if steps != [] {
      StepKeeps(v, steps[0]);
      RunKeeps(Apply(v, steps[0]), steps[1..], w);
    }
  }

  /** Whatever runs from an empty volume, a roll slipping by any flush or not, keeps the invariant. */
  lemma ReachedOk(steps: seq<Step>, v: Volume)
    requires IsRun(Empty, steps, v, Held)
    ensures Inv(v)
  {
    RunKeeps(Empty, steps, v);
  }
}
