/**
 The journal of an open segment. Groups wait until a write takes them all; a write may land whole, land short,
 fail with its buffer back, or lose it; what comes back goes in front of what has been pushed since. Whatever
 happens, the file reads back as a front part of what was pushed, with all that was written in it.
 */
module Journal {
  import opened ByteStrings
  import opened Common
  import opened JournalFormat
  import opened JournalRead
  import opened KeyOrder

  // ---- groups in a row ----

  predicate AllOk(gs: seq<Group>) { forall i {:trigger gs[i]} :: 0 <= i < |gs| ==> GroupOk(gs[i]) }

  /** Groups as they lie one behind the other. */
  function GroupsBytes(gs: seq<Group>, crc: Checksum): Bytes
    requires AllOk(gs)
    decreases |gs|, 1
  {
    if gs == [] then [] else UpToLast(gs, crc)
  }

  function UpToLast(gs: seq<Group>, crc: Checksum): Bytes
    requires AllOk(gs) && gs != []
    decreases |gs|, 0
  {
    GroupsBytes(gs[..|gs| - 1], crc) + GroupBytes(gs[|gs| - 1], crc)
  }

  lemma BytesPush(gs: seq<Group>, g: Group, crc: Checksum)
    requires AllOk(gs) && GroupOk(g)
    ensures AllOk(gs + [g]) && GroupsBytes(gs + [g], crc) == GroupsBytes(gs, crc) + GroupBytes(g, crc)
  {
    var more := gs + [g];
    assert more[..|gs|] == gs && GroupsBytes(more, crc) == UpToLast(more, crc);
  }

  lemma Reassociate(a: Bytes, b: Bytes, c: Bytes)
    ensures (a + b) + c == a + (b + c)
  {}

  lemma {:induction false} BytesConcat(a: seq<Group>, b: seq<Group>, crc: Checksum)
    requires AllOk(a) && AllOk(b)
    ensures AllOk(a + b) && GroupsBytes(a + b, crc) == GroupsBytes(a, crc) + GroupsBytes(b, crc)
    decreases |b|
  {
    if b == [] {
      assert a + b == a && GroupsBytes(a, crc) + [] == GroupsBytes(a, crc);
    } else {
      var init, last := b[..|b| - 1], b[|b| - 1];
      assert AllOk(init) by { forall i | 0 <= i < |init| ensures GroupOk(init[i]) { assert init[i] == b[i]; } }
      BytesConcat(a, init, crc);
      BytesPush(a + init, last, crc);
      BytesPush(init, last, crc);
      assert init + [last] == b && (a + init) + [last] == a + b;
      Reassociate(GroupsBytes(a, crc), GroupsBytes(init, crc), GroupBytes(last, crc));
    }
  }

  /** Where groups laid from a place on lie. */
  function Lay(at: nat, gs: seq<Group>, crc: Checksum): (s: seq<Spot>)
    requires AllOk(gs)
    ensures |s| == |gs|
    decreases |gs|
  {
    if gs == [] then []
      else Lay(at, gs[..|gs| - 1], crc) + [Spot(at + |GroupsBytes(gs[..|gs| - 1], crc)|, gs[|gs| - 1])]
  }

  lemma SpotPush(bytes: Bytes, crc: Checksum, spots: seq<Spot>, s: Spot)
    requires Chained(bytes, crc, spots) && SpotOk(bytes, crc, s) && Follows(bytes, EndBefore(spots, |spots|), s.at)
    ensures Chained(bytes, crc, spots + [s]) && EndBefore(spots + [s], |spots| + 1) == EndOf(s)
    ensures GroupsOf(spots + [s]) == GroupsOf(spots) + [s.group]
  {
    var more := spots + [s];
    forall k | 0 <= k < |more| ensures SpotOk(bytes, crc, more[k]) { assert k < |spots| ==> more[k] == spots[k]; }
    forall k | 0 <= k < |more| ensures Follows(bytes, EndBefore(more, k), more[k].at) {
      assert k > 0 ==> more[k - 1] == spots[k - 1];
      if k < |spots| { assert EndBefore(more, k) == EndBefore(spots, k); }
    }
  }

  lemma LayLast(at: nat, gs: seq<Group>, crc: Checksum, init: seq<Group>, last: Group)
    requires AllOk(gs) && gs == init + [last]
    ensures AllOk(init) && GroupOk(last) && GroupsBytes(gs, crc) == GroupsBytes(init, crc) + GroupBytes(last, crc)
    ensures Lay(at, gs, crc) == Lay(at, init, crc) + [Spot(at + |GroupsBytes(init, crc)|, last)]
  {
    assert gs[..|gs| - 1] == init && gs[|gs| - 1] == last;
    forall i | 0 <= i < |init| ensures GroupOk(init[i]) { assert init[i] == gs[i]; }
    assert GroupsBytes(gs, crc) == UpToLast(gs, crc);
  }

  lemma {:induction false} LayGroups(spots: seq<Spot>, at: nat, gs: seq<Group>, crc: Checksum)
    requires AllOk(gs)
    ensures GroupsOf(spots + Lay(at, gs, crc)) == GroupsOf(spots) + gs
    decreases |gs|
  {
    if gs != [] {
      var init, last := gs[..|gs| - 1], gs[|gs| - 1];
      LayLast(at, gs, crc, init, last);
      LayGroups(spots, at, init, crc);
      var front := spots + Lay(at, init, crc);
      var s := Spot(at + |GroupsBytes(init, crc)|, last);
      assert spots + Lay(at, gs, crc) == front + [s];
      assert GroupsOf(front + [s]) == GroupsOf(front) + [last];
    }
  }

  lemma GroupPush(bytes: Bytes, crc: Checksum, spots: seq<Spot>, laid: seq<Spot>, at: nat, g: Group, all: seq<Spot>)
    requires Chained(bytes, crc, spots + laid) && GroupOk(g) && LiesAt(bytes, at, GroupBytes(g, crc))
    requires Follows(bytes, EndBefore(spots + laid, |spots| + |laid|), at) && all == spots + (laid + [Spot(at, g)])
    ensures Chained(bytes, crc, all) && EndBefore(all, |spots| + |laid| + 1) == at + |GroupBytes(g, crc)|
  {
    assert all == (spots + laid) + [Spot(at, g)];
    SpotPush(bytes, crc, spots + laid, Spot(at, g));
  }

  /** Groups laid behind a chain lengthen it. */
  lemma {:induction false} LayChains(bytes: Bytes, crc: Checksum, spots: seq<Spot>, at: nat, gs: seq<Group>, b: Bytes)
    requires Chained(bytes, crc, spots) && AllOk(gs) && Follows(bytes, EndBefore(spots, |spots|), at)
    requires b == GroupsBytes(gs, crc) && LiesAt(bytes, at, b)
    ensures Chained(bytes, crc, spots + Lay(at, gs, crc))
    ensures Follows(bytes, EndBefore(spots + Lay(at, gs, crc), |spots| + |gs|), at + |b|)
    ensures gs != [] ==> EndBefore(spots + Lay(at, gs, crc), |spots| + |gs|) == at + |b|
    decreases |gs|
  {
    if gs == [] {
      assert spots + Lay(at, gs, crc) == spots;
    } else {
      var init, last := gs[..|gs| - 1], gs[|gs| - 1];
      LayLast(at, gs, crc, init, last);
      var front, back := GroupsBytes(init, crc), GroupBytes(last, crc);
      LieInTurn(bytes, at, front, back);
      LayChains(bytes, crc, spots, at, init, front);
      GroupPush(bytes, crc, spots, Lay(at, init, crc), at + |front|, last, spots + Lay(at, gs, crc));
    }
  }

  // ---- the file ----

  /** What a write leaves of a file: its bytes at its place, all else as it was. */
  function Overwrite(region: Bytes, at: nat, bytes: Bytes): (r: Bytes)
    requires at <= |region|
    ensures |r| >= at + |bytes| && r[..at] == region[..at] && LiesAt(r, at, bytes)
  {
    region[..at] + bytes + (if at + |bytes| <= |region| then region[at + |bytes|..] else [])
  }

  lemma SameFront(a: Bytes, b: Bytes, n: nat, at: nat, piece: Bytes)
    requires n <= |a| && n <= |b| && a[..n] == b[..n] && at + |piece| <= n && LiesAt(a, at, piece)
    ensures LiesAt(b, at, piece)
  {
    assert a[at..at + |piece|] == a[..n][at..at + |piece|];
    assert b[at..at + |piece|] == b[..n][at..at + |piece|];
  }

  lemma SameZeros(a: Bytes, b: Bytes, n: nat, end: int, at: int)
    requires n <= |a| && n <= |b| && a[..n] == b[..n] && at <= n && Follows(a, end, at)
    ensures Follows(b, end, at)
  {
    if end != at {
      forall i | end <= i < at ensures b[i] == 0 { assert b[i] == b[..n][i] == a[..n][i] == a[i]; }
    }
  }

  /** The written part of a file: groups one behind the other, and a place for the next behind them. */
  ghost predicate Written(region: Bytes, crc: Checksum, spots: seq<Spot>, written: nat) {
    && Chained(region, crc, spots) && written <= |region| && Follows(region, EndBefore(spots, |spots|), written)
    && forall k {:trigger spots[k]} :: 0 <= k < |spots| ==> EndOf(spots[k]) <= written
  }

  /** A write past the written part leaves it as it is. */
  lemma WrittenStays(a: Bytes, b: Bytes, crc: Checksum, spots: seq<Spot>, written: nat)
    requires Written(a, crc, spots, written) && written <= |b| && a[..written] == b[..written]
    ensures Written(b, crc, spots, written)
  {
    forall k | 0 <= k < |spots| ensures SpotOk(b, crc, spots[k]) {
      SameFront(a, b, written, spots[k].at, GroupBytes(spots[k].group, crc));
    }
    forall k | 0 <= k < |spots| ensures Follows(b, EndBefore(spots, k), spots[k].at) {
      SameZeros(a, b, written, EndBefore(spots, k), spots[k].at);
    }
    SameZeros(a, b, written, EndBefore(spots, |spots|), written);
  }

  /** Groups that land whole behind the written part, with the zeros behind them, become part of it. */
  lemma WrittenGrows(region: Bytes, crc: Checksum, spots: seq<Spot>, written: nat, gs: seq<Group>, b: Bytes, next: nat)
    requires Written(region, crc, spots, written) && AllOk(gs) && gs != [] && b == GroupsBytes(gs, crc)
    requires LiesAt(region, written, b)
    requires next <= |region| && Follows(region, written + |b|, next)
    ensures Written(region, crc, spots + Lay(written, gs, crc), next)
  {
    var more := spots + Lay(written, gs, crc);
    LayChains(region, crc, spots, written, gs, b);
    forall k | 0 <= k < |more| ensures EndOf(more[k]) <= next {
      if k < |more| - 1 { Ascend(region, crc, more, k, |more| - 1); }
      assert EndBefore(more, |more|) == EndOf(more[|more| - 1]);
    }
  }

  // ---- the journal ----

  /** A write on its way: the buffer it carries and how much of that is rows. */
  datatype Flight = Flight(bytes: Bytes, rows: nat)

  /** The length of a write: its rows, up to whole blocks where the volume asks for those. */
  function Padded(whole: bool, rows: nat): (n: nat)
    ensures n >= rows && (whole ==> n < rows + BLOCK && n % BLOCK == 0) && (!whole ==> n == rows)
  {
    if whole then NextBlock(rows) else rows
  }

  function ZeroBytes(n: nat): (z: Bytes)
    ensures |z| == n && forall i {:trigger z[i]} :: 0 <= i < n ==> z[i] == 0
  {
    seq(n, i => 0)
  }

  ghost predicate FlightOk(whole: bool, flight: Option<Flight>, flying: seq<Group>, crc: Checksum) {
    && AllOk(flying)
    && (if flight.None? then flying == []
        else
          && flying != [] && flight.value.rows == |GroupsBytes(flying, crc)|
          && flight.value.bytes == GroupsBytes(flying, crc)
            + ZeroBytes(Padded(whole, flight.value.rows) - flight.value.rows))
  }

  function InFlight(flight: Option<Flight>): nat { if flight.Some? then |flight.value.bytes| else 0 }

  /** What the fields hold between two steps. */
  ghost predicate Holds(whole: bool, crc: Checksum, region: Bytes, pending: Bytes, flight: Option<Flight>,
                        written: nat, lost: bool, pushed: int,
                        spots: seq<Spot>, flying: seq<Group>, waiting: seq<Group>, gone: seq<Group>)
  {
    var ok :=
      && Written(region, crc, spots, written) && (whole ==> written % BLOCK == 0)
      && AllOk(waiting) && pending == GroupsBytes(waiting, crc) && FlightOk(whole, flight, flying, crc) && AllOk(gone)
      && (lost ==> flight.None?) && (!lost ==> gone == [] && pushed == written + InFlight(flight) + |pending|);
    ok
  }

  lemma PushHolds(whole: bool, crc: Checksum, region: Bytes, pending: Bytes, flight: Option<Flight>, written: nat,
                  lost: bool, pushed: int,
                  spots: seq<Spot>, flying: seq<Group>, waiting: seq<Group>, gone: seq<Group>, rows: Group, more: Bytes)
    requires Holds(whole, crc, region, pending, flight, written, lost, pushed, spots, flying, waiting, gone)
    requires GroupOk(rows) && more == pending + GroupBytes(rows, crc)
    ensures Holds(whole, crc, region, more, flight, written, lost, pushed + |more| - |pending|, spots, flying,
      waiting + [rows], gone)
  {
    BytesPush(waiting, rows, crc);
  }

  /** A write takes all that waits. */
  lemma BeginHolds(whole: bool, crc: Checksum, region: Bytes, pending: Bytes, written: nat, pushed: int,
                   spots: seq<Spot>, flying: seq<Group>, waiting: seq<Group>, gone: seq<Group>, bytes: Bytes)
    requires Holds(whole, crc, region, pending, None, written, false, pushed, spots, flying, waiting, gone)
    requires pending != []
    requires bytes == pending + ZeroBytes(Padded(whole, |pending|) - |pending|)
    ensures flying == []
    ensures Holds(whole, crc, region, [], Some(Flight(bytes, |pending|)), written, false, pushed + |bytes| - |pending|,
      spots, waiting, [], gone)
  {}

  /** What comes back goes in front of what was pushed since, without the padding. */
  lemma BackHolds(whole: bool, crc: Checksum, region: Bytes, pending: Bytes, f: Flight, written: nat, pushed: int,
                  spots: seq<Spot>, flying: seq<Group>, waiting: seq<Group>, gone: seq<Group>, after: Bytes)
    requires Holds(whole, crc, region, pending, Some(f), written, false, pushed, spots, flying, waiting, gone)
    requires written <= |after| && after[..written] == region[..written]
    ensures f.rows <= |f.bytes|
    ensures Holds(whole, crc, after, f.bytes[..f.rows] + pending, None, written, false, pushed - (|f.bytes| - f.rows),
      spots, [], flying + waiting, gone)
  {
    WrittenStays(region, after, crc, spots, written);
    BytesConcat(flying, waiting, crc);
    assert f.bytes[..f.rows] == GroupsBytes(flying, crc);
  }

  /** A buffer that is gone takes its groups with it, and every later write is refused. */
  lemma GoneHolds(whole: bool, crc: Checksum, region: Bytes, pending: Bytes, f: Flight, written: nat, pushed: int,
                  spots: seq<Spot>, flying: seq<Group>, waiting: seq<Group>, gone: seq<Group>, after: Bytes)
    requires Holds(whole, crc, region, pending, Some(f), written, false, pushed, spots, flying, waiting, gone)
    requires written <= |after| && after[..written] == region[..written]
    ensures gone == [] && Holds(whole, crc, after, pending, None, written, true, pushed, spots, [], waiting, flying)
  {
    WrittenStays(region, after, crc, spots, written);
  }

  lemma PaddedFollows(after: Bytes, whole: bool, written: nat, rows: nat, len: nat, z: Bytes)
    requires len == Padded(whole, rows) && (whole ==> written % BLOCK == 0) && z == ZeroBytes(len - rows)
    requires LiesAt(after, written + rows, z)
    ensures Follows(after, written + rows, written + len) && (whole ==> (written + len) % BLOCK == 0)
  {
    forall i | written + rows <= i < written + len ensures after[i] == 0 {
      assert after[i] == after[written + rows..written + len][i - written - rows];
    }
  }

  /** A write that lands whole puts its groups behind the others, in turn and then padded. */
  lemma LandedWritten(whole: bool, crc: Checksum, region: Bytes, written: nat, spots: seq<Spot>, flying: seq<Group>,
                      after: Bytes, b: Bytes, z: Bytes, len: nat)
    requires Written(region, crc, spots, written) && (whole ==> written % BLOCK == 0)
    requires AllOk(flying) && flying != [] && b == GroupsBytes(flying, crc)
    requires len == Padded(whole, |b|) && z == ZeroBytes(len - |b|)
    requires written + len <= |after| && after[..written] == region[..written] && LiesAt(after, written, b + z)
    ensures Written(after, crc, spots + Lay(written, flying, crc), written + len)
    ensures whole ==> (written + len) % BLOCK == 0
  {
    WrittenStays(region, after, crc, spots, written);
    LieInTurn(after, written, b, z);
    PaddedFollows(after, whole, written, |b|, len, z);
    WrittenGrows(after, crc, spots, written, flying, b, written + len);
  }

  lemma LandedGroups(spots: seq<Spot>, written: nat, flying: seq<Group>, waiting: seq<Group>, gone: seq<Group>,
                     crc: Checksum)
    requires AllOk(flying) && gone == []
    ensures GroupsOf(spots + Lay(written, flying, crc)) + gone + [] + waiting == GroupsOf(spots) + gone + flying
      + waiting
  {
    LayGroups(spots, written, flying, crc);
  }

  lemma LandedHolds(whole: bool, crc: Checksum, region: Bytes, pending: Bytes, f: Flight, written: nat, pushed: int,
                    spots: seq<Spot>, flying: seq<Group>, waiting: seq<Group>, gone: seq<Group>, after: Bytes)
    requires Holds(whole, crc, region, pending, Some(f), written, false, pushed, spots, flying, waiting, gone)
    requires after == Overwrite(region, written, f.bytes)
    ensures AllOk(flying)
    ensures GroupsOf(spots + Lay(written, flying, crc)) + gone + [] + waiting == GroupsOf(spots) + gone + flying
      + waiting
    ensures Holds(whole, crc, after, pending, None, written + |f.bytes|, false, pushed,
      spots + Lay(written, flying, crc), [], waiting, gone)
  {
    LandedGroups(spots, written, flying, waiting, gone, crc);
    LandedWritten(whole, crc, region, written, spots, flying, after, GroupsBytes(flying, crc),
                  ZeroBytes(|f.bytes| - f.rows), |f.bytes|);
  }

  lemma NoneWaiting(gs: seq<Group>, crc: Checksum)
    requires AllOk(gs)
    ensures GroupsBytes(gs, crc) == [] <==> gs == []
  {
    if gs != [] { assert GroupsBytes(gs, crc) == UpToLast(gs, crc); }
  }

  lemma ResumeHolds(region: Bytes, crc: Checksum, spots: seq<Spot>, written: nat, after: Bytes, next: nat, zeros: Bytes)
    requires Chained(region, crc, spots) && written == EndBefore(spots, |spots|) <= |region|
    requires written <= next && zeros == ZeroBytes(next - written) && after == Overwrite(region, written, zeros)
    requires next == written || (next < written + BLOCK && next % BLOCK == 0)
    ensures Written(after, crc, spots, next)
  {
    forall k | 0 <= k < |spots| ensures EndOf(spots[k]) <= written {
      if k < |spots| - 1 { Ascend(region, crc, spots, k, |spots| - 1); }
    }
    WrittenStays(region, after, crc, spots, written);
    forall i | written <= i < next ensures after[i] == 0 { assert after[i] == after[written..next][i - written]; }
  }

  // ---- reading it back ----

  /** How many groups lie whole in so many bytes. */
  function WholeIn(gs: seq<Group>, crc: Checksum, m: nat): (n: nat)
    requires AllOk(gs)
    ensures n <= |gs| && |GroupsBytes(gs[..n], crc)| <= m
    ensures n < |gs| ==> |GroupsBytes(gs[..n + 1], crc)| > m
    decreases |gs|
  {
    assert gs[..|gs|] == gs;
    if |GroupsBytes(gs, crc)| <= m then |gs|
    else
      assert gs != [];
      var init := gs[..|gs| - 1];
      var n := WholeIn(init, crc, m);
      assert init[..n] == gs[..n] && (n < |init| ==> init[..n + 1] == gs[..n + 1]);
      n
  }

  /** How many of these groups lie whole behind the written part of a file. */
  ghost function LandedOf(region: Bytes, crc: Checksum, written: nat, gs: seq<Group>): (n: nat)
    requires AllOk(gs) && written <= |region|
    ensures n <= |gs|
  {
    WholeIn(gs, crc, Shared(region[written..], GroupsBytes(gs, crc)))
  }

  lemma FrontLies(region: Bytes, at: nat, all: Bytes, part: Bytes, rest: Bytes, m: nat)
    requires at <= |region| && all == part + rest && |part| <= m <= |all| && m <= |region| - at
    requires all[..m] == region[at..][..m]
    ensures LiesAt(region, at, part)
  {
    forall i | 0 <= i < |part| ensures region[at + i] == part[i] {
      assert part[i] == all[i] == all[..m][i] == region[at..][..m][i];
    }
    assert region[at..at + |part|] == part;
  }

  lemma LandedLies(region: Bytes, crc: Checksum, written: nat, gs: seq<Group>, n: nat)
    requires AllOk(gs) && written <= |region| && n == LandedOf(region, crc, written, gs)
    ensures AllOk(gs[..n]) && LiesAt(region, written, GroupsBytes(gs[..n], crc))
  {
    var all := GroupsBytes(gs, crc);
    assert gs[..n] + gs[n..] == gs;
    BytesConcat(gs[..n], gs[n..], crc);
    FrontLies(region, written, all, GroupsBytes(gs[..n], crc), GroupsBytes(gs[n..], crc),
              Shared(region[written..], all));
  }

  /** The groups a file shows: those written, and those behind them that landed whole. */
  ghost function Shown(region: Bytes, crc: Checksum, written: nat, spots: seq<Spot>, gs: seq<Group>): seq<Spot>
    requires AllOk(gs) && written <= |region|
  {
    spots + Lay(written, gs[..LandedOf(region, crc, written, gs)], crc)
  }

  lemma ShownChained(region: Bytes, crc: Checksum, written: nat, spots: seq<Spot>, gs: seq<Group>)
    requires AllOk(gs) && Written(region, crc, spots, written)
    ensures Chained(region, crc, Shown(region, crc, written, spots, gs))
    ensures GroupsOf(Shown(region, crc, written, spots, gs)) == GroupsOf(spots)
      + gs[..LandedOf(region, crc, written, gs)]
  {
    var n := LandedOf(region, crc, written, gs);
    LandedLies(region, crc, written, gs, n);
    LayChains(region, crc, spots, written, gs[..n], GroupsBytes(gs[..n], crc));
    LayGroups(spots, written, gs[..n], crc);
  }

  /** How a write ends: before it began, with its buffer gone, or with its buffer back; a front part may have landed. */
  datatype Outcome = FillFailed | BufferGone(landed: nat) | Short(landed: nat, back: bool) | Landed

  datatype Begun = Refused | Nothing | Started

  class Log {
    const crc: Checksum
    const whole: bool
    var region: Bytes           // the file from the rows on
    var pending: Bytes
    var flight: Option<Flight>
    var written: nat
    var lost: bool
    var pushed: int
    ghost var spots: seq<Spot>
    ghost var flying: seq<Group>
    ghost var waiting: seq<Group>
    ghost var gone: seq<Group>

    ghost predicate Valid()
      reads this
    {
      Holds(whole, crc, region, pending, flight, written, lost, pushed, spots, flying, waiting, gone)
    }

    /** Every group pushed, in order: those in the file, those a failed write took with it, and those to come. */
    ghost function Pushed(): seq<Group>
      reads this
    {
      GroupsOf(spots) + gone + flying + waiting
    }

    constructor (crc: Checksum, whole: bool, region: Bytes)
      ensures Valid() && Pushed() == [] && this.crc == crc && this.whole == whole && this.region == region && !lost
    {
      this.crc, this.whole, this.region := crc, whole, region;
      pending, flight, written, lost, pushed := [], None, 0, false, 0;
      spots, flying, waiting, gone := [], [], [], [];
    }

    /** Go on after a reopened file's last whole group, from a block boundary where the volume asks for those. */
    constructor Resume(crc: Checksum, whole: bool, region: Bytes, ghost spots: seq<Spot>, written: nat)
      requires Chained(region, crc, spots) && written == EndBefore(spots, |spots|) <= |region|
      ensures Valid() && Pushed() == GroupsOf(spots) && this.crc == crc && this.whole == whole && !lost
      ensures this.spots == spots
    {
      var next := Padded(whole, written);
      var zeros := ZeroBytes(next - written);
      this.crc, this.whole, this.region := crc, whole, Overwrite(region, written, zeros);
      pending, flight, this.written, lost, pushed := [], None, next, false, next;
      this.spots, flying, waiting, gone := spots, [], [], [];
      new;
      ResumeHolds(region, crc, spots, written, this.region, next, zeros);
      assert GroupsOf(spots) + [] + [] + [] == GroupsOf(spots);
    }

    /** A write's rows join those waiting, as one group. */
    method Push(rows: Group)
      requires Valid() && (rows != [] ==> GroupOk(rows))
      modifies this
      ensures Valid() && region == old(region) && lost == old(lost) && flight == old(flight)
      ensures Pushed() == if rows == [] then old(Pushed()) else old(Pushed()) + [rows]
    {
      if rows == [] {
        return;
      }
      var more := PushGroup(pending, rows, crc);
      PushHolds(whole, crc, region, pending, flight, written, lost, pushed, spots, flying, waiting, gone, rows, more);
      ghost var before := GroupsOf(spots) + gone + flying;
      assert before + (waiting + [rows]) == (before + waiting) + [rows];
      pushed, pending, waiting := pushed + |more| - |pending|, more, waiting + [rows];
    }

    /** A write begins, unless rows were lost or none wait. */
    method BeginWrite() returns (r: Begun)
      requires Valid() && flight.None?
      modifies this
      ensures Valid() && Pushed() == old(Pushed()) && region == old(region) && lost == old(lost)
      ensures r.Refused? <==> lost
      ensures r.Started? <==> flight.Some?
      ensures r.Nothing? ==> old(pending) == []
      ensures !r.Started? ==> pending == old(pending)
      ensures r.Started? ==> pending == [] && old(pending) != [] && flight.value.rows == |old(pending)|
      ensures r.Started? ==>
        flight.value.bytes == old(pending) + ZeroBytes(Padded(whole, |old(pending)|) - |old(pending)|)
    {
      if lost {
        return Refused;
      }
      if pending == [] {
        return Nothing;
      }
      var rows := |pending|;
      var bytes := pending + ZeroBytes(Padded(whole, rows) - rows);
      BeginHolds(whole, crc, region, pending, written, pushed, spots, flying, waiting, gone, bytes);
      pushed, flight, pending := pushed + |bytes| - rows, Some(Flight(bytes, rows)), [];
      flying, waiting := waiting, [];
      return Started;
    }

    /** All of a write landed. */
    method Land()
      requires Valid() && flight.Some?
      modifies this
      ensures Valid() && flight.None? && Pushed() == old(Pushed()) && lost == old(lost) && pending == old(pending)
      ensures written == old(written) + |old(flight).value.bytes|
    {
      LandsWithin();
      var f, after := flight.value, Overwrite(region, written, flight.value.bytes);
      LandedHolds(whole, crc, region, pending, f, written, pushed, spots, flying, waiting, gone, after);
      flight, region, spots, flying := None, after, spots + Lay(written, flying, crc), [];
      written := written + |f.bytes|;
    }

    /** Part of a write landed and its buffer is gone, so no later write may claim its rows. */
    method Lose(landed: nat)
      requires Valid() && flight.Some? && landed <= |flight.value.bytes|
      modifies this
      ensures Valid() && flight.None? && Pushed() == old(Pushed()) && lost && written == old(written)
    {
      LandsWithin();
      var f, after := flight.value, Overwrite(region, written, flight.value.bytes[..landed]);
      GoneHolds(whole, crc, region, pending, f, written, pushed, spots, flying, waiting, gone, after);
      flight, region, lost, gone, flying := None, after, true, flying, [];
    }

    /** A write came back short: its groups wait again, ahead of newer ones, and the padding is undone. */
    method PutBack(landed: nat)
      requires Valid() && flight.Some? && landed <= |flight.value.bytes|
      modifies this
      ensures Valid() && flight.None? && Pushed() == old(Pushed()) && lost == old(lost) && written == old(written)
      ensures old(flight).value.rows <= |old(flight).value.bytes|
      ensures pending == old(flight).value.bytes[..old(flight).value.rows] + old(pending)
    {
      LandsWithin();
      var f, after := flight.value, Overwrite(region, written, flight.value.bytes[..landed]);
      BackHolds(whole, crc, region, pending, f, written, pushed, spots, flying, waiting, gone, after);
      flight, region, pending, pushed := None, after, f.bytes[..f.rows] + pending, pushed - (|f.bytes| - f.rows);
      flying, waiting := [], flying + waiting;
    }

    /** A write ends; whatever part of it landed, the groups are in the file, back in front, or known to be lost. */
    method EndWrite(outcome: Outcome) returns (ok: bool)
      requires Valid() && flight.Some?
      requires outcome.BufferGone? || outcome.Short? ==> outcome.landed <= |flight.value.bytes|
      modifies this
      ensures Valid() && flight.None? && Pushed() == old(Pushed())
      ensures ok <==> outcome.Landed?
      ensures written == old(written) + (if ok then |old(flight).value.bytes| else 0)
      ensures lost <==> outcome.BufferGone? || (outcome.Short? && !outcome.back)
    {
      ok := false;
      LandsWithin();
      match outcome
      case FillFailed =>
        PutBack(0);
      case BufferGone(landed) =>
        Lose(landed);
      case Short(landed, back) =>
        if back {
          PutBack(landed);
        } else {
          Lose(landed);
        }
      case Landed =>
        Land();
        ok := true;
    }

    /** The groups a write may have landed part of. */
    ghost function Behind(): seq<Group>
      reads this
    {
      if lost then gone else flying + waiting
    }

    /**
     Main result: if no checksum holds by chance where the reader looks and no group lies, the file reads back as a
     front part of all that was pushed, in order and none twice: every group written, and those behind them that landed
     whole.
     */
    method ReadBack() returns (groups: seq<Group>)
      requires Valid()
      ensures AllOk(Behind()) && written <= |region|
      ensures Chained(region, crc, Shown(region, crc, written, spots, Behind()))
      ensures Honest(region, crc, Shown(region, crc, written, spots, Behind())) ==>
        && groups == GroupsOf(spots) + Behind()[..LandedOf(region, crc, written, Behind())] && groups <= Pushed()
    {
      BehindOk();
      ghost var gs, shown := Behind(), Shown(region, crc, written, spots, Behind());
      ShownChained(region, crc, written, spots, gs);
      var at;
      ghost var taken;
      groups, at, taken := ReadGroups(region, crc, shown);
    }

    lemma BehindOk()
      requires Valid()
      ensures AllOk(Behind()) && Written(region, crc, spots, written) && written <= |region|
      ensures GroupsOf(spots) + Behind() <= Pushed()
    {
      BytesConcat(flying, waiting, crc);
    }

    /** Unless rows were lost, the bytes pushed are those written, those on their way and those that wait. */
    lemma Accounted()
      requires Valid() && !lost
      ensures pushed == written + InFlight(flight) + |pending|
      ensures pending == [] && flight.None? ==> Pushed() == GroupsOf(spots)
    {
      assert flight.None? ==> flying == [];
      NoneWaiting(waiting, crc);
    }

    lemma LandsWithin()
      requires Valid()
      ensures written <= |region| && (flight.Some? ==> !lost)
    {}
  }
}
