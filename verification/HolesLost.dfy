/**
 Three histories in which a punch frees the bytes of a record the index then points at. In one the record is a copy
 whose pass has given up its hold and not yet told the index. In another it is a put that was given up unpublished,
 which a rebuild finds in the footer and takes over the published one. In the last it is an older put whose newer
 version a roll let slip by the punch's flush.
 */
module HolesLost {
  import opened Volume
  import opened Compaction
  import opened CompactionLasting
  import opened Holes
  import opened HolesSafe
  import Holds = CompactionHolds
  import Orphans = CompactionOrphans
  import Slips = CompactionSlips

  function Moves(steps: seq<Step>): seq<Action> { seq(|steps|, i requires 0 <= i < |steps| => Move(steps[i])) }

  /** A run of the volume with no punch about is a history. */
  lemma {:induction false} Lifts(v: Volume, steps: seq<Step>, w: Volume, careful: bool)
    requires IsRun(v, steps, w, Firm)
    ensures IsHistory(Disk(v, {}, map[]), Moves(steps), Disk(w, {}, map[]), careful)
    decreases |steps|
  {
    if steps != [] {
      var d := Disk(v, {}, map[]);
      assert Does(d, Move(steps[0])) == Disk(Apply(v, steps[0]), {}, map[]);
      Lifts(Apply(v, steps[0]), steps[1..], w, careful);
      assert Moves(steps)[1..] == Moves(steps[1..]);
    }
  }

  /** Nothing the code tests keeps a punch off the segment, and the key's only published put ends in a hole. */
  lemma AwaitedIsHoled() returns (before: seq<Action>, d: Disk, xs: seq<Action>, e: Disk)
    ensures IsHistory(Start, before, d, false) && Can(d, StartPunch(2))
    ensures IsHistory(Does(d, StartPunch(2)), xs, e, false)
    ensures Newest(e.v.log, e.v.published, Holds.KEY, 0) && 0 in e.v.at && e.v.at[0] == 2 && Copy(2, 0) in e.holed
  {
    var steps := Holds.UpToCopied();
    Lifts(Empty, steps, Holds.Copied(), false);
    before, d := Moves(steps), Disk(Holds.Copied(), {}, map[]);
    Reached(before, d, false);
    assert Newest(d.v.log, d.v.published, Holds.KEY, 0);
    assert AwaitedBy(d.v, 2, 1, 0);
    xs, e := PunchLoses(d, 2, 1, 0);
  }

  /** The punch of segment 2 frees the put the index does not know of. */
  lemma OrphanPunched() returns (xs: seq<Action>, d: Disk, v: Volume)
    ensures IsHistory(Start, xs, d, false) && Copy(2, 1) in d.holed
    ensures v == Orphans.TwoPuts({0, 1}, {1}, Orphans.BOTH, map[], 0) && d.v == v.(durable := d.v.durable)
  {
    var steps;
    steps, v := Orphans.SealsBoth();
    Lifts(Empty, steps, v, false);
    var a := Disk(v, {}, map[]);
    xs := Moves(steps);
    var b := Does(a, StartPunch(2));
    HistoryPush(Start, xs, a, StartPunch(2), b, false);
    xs := xs + [StartPunch(2)];
    assert Copy(2, 1) in v.copies;
    var c := Does(b, Look(2, 1));
    HistoryPush(Start, xs, b, Look(2, 1), c, false);
    xs := xs + [Look(2, 1)];
    var more;
    FirmReached(steps, v);
    more, d := Frees(c, 2, 1, false);
    GoesOnTo(Start, xs, c, more, d, false);
    xs := xs + more;
  }

  /** The punch leaves the index whole, and a crash puts it on the hole. */
  lemma OrphanIsHoled() returns (xs: seq<Action>, d: Disk, crash: Step)
    ensures IsHistory(Start, xs, d, false) && IndexWhole(d) && Newest(d.v.log, d.v.published, Orphans.KEY, 0)
    ensures crash.Crash? && Possible(d.v, crash)
    ensures var e := Does(d, Move(crash));
      Newest(e.v.log, e.v.published, Orphans.KEY, 1) && e.v.at[1] == 2 && Copy(2, 1) in e.holed
  {
    var v, e;
    xs, d, v := OrphanPunched();
    Reached(xs, d, false);
    WholeByInv(d, false);
    crash, e := UnburiedLoses(d, 2, 1);
    assert Newest(d.v.log, d.v.published, Orphans.KEY, 0);
  }

  /** A punch starts on segment 1, where the older put is spent by the published newer one. */
  lemma SpentPunched() returns (xs: seq<Action>, d: Disk)
    ensures IsHistory(Start, xs, d, true)
    ensures d == Disk(Slips.TwoPuts({}, map[], 0), {}, map[1 := Punch({}, Looking)])
  {
    var steps, v := Slips.RollsBoth();
    Lifts(Empty, steps, v, true);
    var a := Disk(v, {}, map[]);
    xs := Moves(steps);
    d := Does(a, StartPunch(1));
    HistoryPush(Start, xs, a, StartPunch(1), d, true);
    xs := xs + [StartPunch(1)];
  }

  /** It takes the older put and asks for its flush. */
  lemma SpentAsked() returns (xs: seq<Action>, d: Disk)
    ensures IsHistory(Start, xs, d, true) && d.v == Slips.TwoPuts({}, map[], 0) && d.holed == {}
    ensures d.punches == map[1 := Punch({0}, Flushing(Slips.BOTH))]
  {
    var b;
    xs, b := SpentPunched();
    assert Copy(1, 0) in b.v.copies && Reaches(b.v.log, 1, Orphans.KEY);
    var c := Does(b, Look(1, 0));
    HistoryPush(Start, xs, b, Look(1, 0), c, true);
    xs := xs + [Look(1, 0)];
    assert c.punches[1].dead == {0};
    d := Does(c, Ask(1));
    HistoryPush(Start, xs, c, Ask(1), d, true);
    xs := xs + [Ask(1)];
    assert d.punches[1] == Punch({0}, Flushing(Slips.BOTH)) && d.punches.Keys == {1};
  }

  /** The flush comes back without the newer put's segment, and a crash puts the index on the hole. */
  lemma SlipIsHoled() returns (before: seq<Action>, d: Disk, xs: seq<Action>, e: Disk)
    ensures IsHistory(Start, before, d, true) && Can(d, EndAsk(1)) && !Covering(d, 1)
    ensures IsHistory(Does(d, EndAsk(1)), xs, e, true) && !IndexWhole(e)
    ensures Newest(e.v.log, e.v.published, Orphans.KEY, 0) && Copy(1, 0) in e.holed
  {
    before, d := SpentAsked();
    Reached(before, d, true);
    assert Copy(1, 0) in d.v.copies && Reaches(d.v.log, 1, Orphans.KEY) && Spent(d.v, 0);
    assert !Buried(d.v, Copy(1, 0));
    xs, e := UncoveredLoses(d, 1, 0);
  }
}
