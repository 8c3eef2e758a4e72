/**
 Reading a journal back: whole groups from the front, over the zeros a whole-block volume pads its writes
 with, until the first place where none reads.
 */
module JournalRead {
  import opened ByteStrings
  import opened Common
  import opened JournalFormat
  import opened Numbers

  const BLOCK := 4096

  function NextBlock(n: int): int { (n + BLOCK - 1) / BLOCK * BLOCK }

  /** A group and the place it lies at. */
  datatype Spot = Spot(at: nat, group: Group)

  ghost predicate SpotOk(bytes: Bytes, crc: Checksum, s: Spot) {
    GroupOk(s.group) && LiesAt(bytes, s.at, GroupBytes(s.group, crc))
  }

  function EndOf(s: Spot): nat
    requires GroupOk(s.group)
  {
    s.at + GROUP_HEAD + |Body(s.group)| + 4
  }

  predicate Zeros(bytes: Bytes, from: int, to: int) {
    0 <= from <= to <= |bytes| && forall i {:trigger bytes[i]} :: from <= i < to ==> bytes[i] == 0
  }

  /** A place right behind an end, or behind the zeros up to the next block. */
  predicate Follows(bytes: Bytes, end: int, at: int) {
    at == end || (end < at < end + BLOCK && at % BLOCK == 0 && Zeros(bytes, end, at))
  }

  lemma NextBlockIs(end: nat, at: nat)
    requires end < at < end + BLOCK && at % BLOCK == 0
    ensures NextBlock(end) == at
  {}

  /** Where the groups before this one end. */
  function EndBefore(spots: seq<Spot>, k: nat): nat
    requires k <= |spots| && forall i {:trigger spots[i]} :: 0 <= i < |spots| ==> GroupOk(spots[i].group)
  {
    if k == 0 then 0 else EndOf(spots[k - 1])
  }

  /** Groups that lie one behind the other from the front. */
  ghost predicate Chained(bytes: Bytes, crc: Checksum, spots: seq<Spot>) {
    && (forall k {:trigger spots[k]} :: 0 <= k < |spots| ==> SpotOk(bytes, crc, spots[k]))
    && (forall k {:trigger EndBefore(spots, k)} ::
      0 <= k < |spots| ==> Follows(bytes, EndBefore(spots, k), spots[k].at))
  }

  predicate IsPlace(spots: seq<Spot>, k: int) { 0 <= k <= |spots| }

  /**
   Where a reader looks for the next group and none lies, no checksum holds by chance: right behind the groups before
   it, and, behind the last, past zeros at the next block.
   */
  ghost predicate HonestAt(bytes: Bytes, crc: Checksum, spots: seq<Spot>, k: int)
    requires Chained(bytes, crc, spots) && IsPlace(spots, k)
  {
    var end := EndBefore(spots, k);
    && ((k < |spots| && spots[k].at == end) || !Passes(bytes, end, crc))
    && (k == |spots| && Zeros(bytes, end, NextBlock(end)) ==> !Passes(bytes, NextBlock(end), crc))
  }

  /** No checksum holds at the places where a reader looks and no group lies. */
  ghost predicate Honest(bytes: Bytes, crc: Checksum, spots: seq<Spot>)
    requires Chained(bytes, crc, spots)
  {
    forall k {:trigger IsPlace(spots, k)} :: IsPlace(spots, k) ==> HonestAt(bytes, crc, spots, k)
  }

  function GroupsOf(spots: seq<Spot>): (g: seq<Group>)
    ensures |g| == |spots| && forall i {:trigger g[i]} :: 0 <= i < |spots| ==> g[i] == spots[i].group
  {
    seq(|spots|, i requires 0 <= i < |spots| => spots[i].group)
  }

  /** Later groups lie past earlier ones. */
  lemma {:induction false} Ascend(bytes: Bytes, crc: Checksum, spots: seq<Spot>, i: nat, j: nat)
    requires Chained(bytes, crc, spots) && i < j < |spots|
    ensures EndOf(spots[i]) <= spots[j].at
    decreases j
  {
    assert EndBefore(spots, j) == EndOf(spots[j - 1]);
    if i < j - 1 { Ascend(bytes, crc, spots, i, j - 1); }
  }

  /** A place a reader looks at after so many groups, and no group lies at. */
  ghost predicate LooksInVain(bytes: Bytes, crc: Checksum, spots: seq<Spot>, k: int, at: int)
    requires Chained(bytes, crc, spots)
  {
    IsPlace(spots, k) &&
    var end := EndBefore(spots, k);
    || (at == end && !(k < |spots| && spots[k].at == end))
    || (k == |spots| && at == NextBlock(end) && Zeros(bytes, end, at))
  }

  /** Read one group; where the journal is whole up to here, that is the group that lies here, if one does. */
  method GroupAt(bytes: Bytes, at: nat, crc: Checksum, ghost spots: seq<Spot>, ghost k: nat)
    returns (r: Option<Got<Group>>)
    ensures r == ReadGroup(bytes, at, crc) && (r.Some? ==> at < r.value.next <= |bytes|)
    ensures Chained(bytes, crc, spots) && k < |spots| && spots[k].at == at ==>
      r == Some(Got(spots[k].group, EndOf(spots[k])))
    ensures Chained(bytes, crc, spots) && Honest(bytes, crc, spots) && LooksInVain(bytes, crc, spots, k, at) ==> r.None?
  {
    r := ReadGroup(bytes, at, crc);
    if r.Some? { GroupsPass(bytes, at, crc, r.value.value, r.value.next); }
    if Chained(bytes, crc, spots) && k < |spots| && spots[k].at == at {
      assert SpotOk(bytes, crc, spots[k]);
      GroupReadsBack(bytes, at, EndOf(spots[k]), spots[k].group, crc, GroupBytes(spots[k].group, crc));
    }
  }

  /** Where a read stands after so many groups: at the next one, or where the last ended. */
  ghost predicate Stands(spots: seq<Spot>, k: nat, at: nat)
    requires k <= |spots| && forall i {:trigger spots[i]} :: 0 <= i < |spots| ==> GroupOk(spots[i].group)
  {
    at == EndBefore(spots, k) || (k < |spots| && at == spots[k].at)
  }

  method IsPadding(bytes: Bytes, from: nat, to: nat) returns (r: bool)
    ensures r <==> from < to && Zeros(bytes, from, to)
  {
    if from >= to || to > |bytes| {
      return false;
    }
    for i := from to to
      invariant forall j {:trigger bytes[j]} :: from <= j < i ==> bytes[j] == 0
    {
      if bytes[i] != 0 {
        return false;
      }
    }
    return true;
  }

  /** A group that was read, from where to where. */
  datatype Taken = Taken(at: nat, group: Group, next: nat)

  function EndTaken(taken: seq<Taken>, k: nat): nat
    requires k <= |taken|
  {
    if k == 0 then 0 else taken[k - 1].next
  }

  /** Each reads where it was taken, and follows the one before. */
  ghost predicate InTurn(bytes: Bytes, crc: Checksum, taken: seq<Taken>) {
    forall k {:trigger EndTaken(taken, k)} :: 0 <= k < |taken| ==>
      && ReadGroup(bytes, taken[k].at, crc) == Some(Got(taken[k].group, taken[k].next))
      && Follows(bytes, EndTaken(taken, k), taken[k].at)
  }

  /** No group reads here, nor past zeros at the next block. */
  predicate NoneFollows(bytes: Bytes, crc: Checksum, at: nat) {
    && ReadGroup(bytes, at, crc).None?
    && (at < NextBlock(at) && Zeros(bytes, at, NextBlock(at)) ==> ReadGroup(bytes, NextBlock(at), crc).None?)
  }

  /** So many groups taken, standing behind the last or at the next. */
  ghost predicate Went(bytes: Bytes, crc: Checksum, taken: seq<Taken>, groups: seq<Group>, at: nat) {
    var ok :=
      && InTurn(bytes, crc, taken) && |taken| == |groups| && Follows(bytes, EndTaken(taken, |taken|), at)
      && (at != EndTaken(taken, |taken|) ==> ReadGroup(bytes, at, crc).Some?)
      && forall k {:trigger groups[k]} :: 0 <= k < |groups| ==> groups[k] == taken[k].group;
    ok
  }

  lemma TakenPush(bytes: Bytes, crc: Checksum, taken: seq<Taken>, groups: seq<Group>, next: Taken)
    requires Went(bytes, crc, taken, groups, next.at)
    requires ReadGroup(bytes, next.at, crc) == Some(Got(next.group, next.next))
    ensures Went(bytes, crc, taken + [next], groups + [next.group], next.next)
  {
    var more := taken + [next];
    forall k | 0 <= k < |more|
      ensures ReadGroup(bytes, more[k].at, crc) == Some(Got(more[k].group, more[k].next))
      ensures Follows(bytes, EndTaken(more, k), more[k].at)
    {
      if k < |taken| { assert EndTaken(more, k) == EndTaken(taken, k) && more[k] == taken[k]; }
    }
  }

  /** Past the zeros up to a block, where a group reads. */
  lemma WentOn(bytes: Bytes, crc: Checksum, taken: seq<Taken>, groups: seq<Group>, at: nat, boundary: nat)
    requires Went(bytes, crc, taken, groups, at) && ReadGroup(bytes, at, crc).None?
    requires at < boundary == NextBlock(at) && Zeros(bytes, at, boundary) && ReadGroup(bytes, boundary, crc).Some?
    ensures Went(bytes, crc, taken, groups, boundary)
  {}

  /**
   Reads group after group until none follows, and says how far that went. Of any bytes it takes just the groups that
   read one behind the other from the front; where groups were laid and no checksum holds by chance, these are they.
   */
  method ReadGroups(bytes: Bytes, crc: Checksum, ghost spots: seq<Spot>)
    returns (groups: seq<Group>, at: nat, ghost taken: seq<Taken>)
    ensures Went(bytes, crc, taken, groups, at) && at == EndTaken(taken, |taken|)
    ensures NoneFollows(bytes, crc, at)
    ensures Chained(bytes, crc, spots) && Honest(bytes, crc, spots) ==>
      groups == GroupsOf(spots) && at == EndBefore(spots, |spots|)
  {
    groups, at, taken := [], 0, [];
    ghost var ok := Chained(bytes, crc, spots) && Honest(bytes, crc, spots);
    while true
      invariant Went(bytes, crc, taken, groups, at)
      invariant ok ==> |groups| <= |spots| && groups == GroupsOf(spots)[..|groups|] && Stands(spots, |groups|, at)
      decreases |bytes| - at
    {
      ghost var k := |groups|;
      assert ok && k < |spots| ==> Follows(bytes, EndBefore(spots, k), spots[k].at);
      var group := GroupAt(bytes, at, crc, spots, k);
      if group.Some? {
        TakenPush(bytes, crc, taken, groups, Taken(at, group.value.value, group.value.next));
        taken := taken + [Taken(at, group.value.value, group.value.next)];
        groups, at := groups + [group.value.value], group.value.next;
        continue;
      }
      var boundary := NextBlock(at);
      if ok && k < |spots| { NextBlockIs(at, spots[k].at); }
      var padding := IsPadding(bytes, at, boundary);
      var beyond := None;
      if padding {
        beyond := GroupAt(bytes, boundary, crc, spots, k);
      }
      if beyond.None? {
        assert ok ==> GroupsOf(spots)[..|spots|] == GroupsOf(spots);
        return;
      }
      WentOn(bytes, crc, taken, groups, at, boundary);
      at := boundary;
    }
  }

  /** Whatever bytes are read, every group taken has its checksum and lies behind the one before. */
  lemma TakenPass(bytes: Bytes, crc: Checksum, taken: seq<Taken>, k: nat, one: Taken, end: nat)
    requires InTurn(bytes, crc, taken) && k < |taken| && one == taken[k] && end == EndTaken(taken, k)
    ensures one.group != [] && Passes(bytes, one.at, crc) && end <= one.at < one.next <= |bytes|
    ensures crc(bytes[one.at..one.next - 4]) % BITS_32 == ReadLe(bytes, one.next - 4, 4)
  {
    OnePasses(bytes, crc, one);
  }

  lemma OnePasses(bytes: Bytes, crc: Checksum, one: Taken)
    requires ReadGroup(bytes, one.at, crc) == Some(Got(one.group, one.next))
    ensures one.group != [] && Passes(bytes, one.at, crc) && one.at + 12 <= one.next <= |bytes|
    ensures crc(bytes[one.at..one.next - 4]) % BITS_32 == ReadLe(bytes, one.next - 4, 4)
  {
    GroupsPass(bytes, one.at, crc, one.group, one.next);
  }
}
