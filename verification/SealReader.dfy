/**
 How a reopened segment's footer is found: at the last byte that is not zero, or, where a seal's cut never landed,
 through the mark the seal left behind the rows. A segment that shows neither is read from its rows.
 */
module SealReader {
  import opened ByteStrings
  import opened Common
  import opened Numbers

  const FIXED_TAIL_LEN := 64
  const MARK_LEN := 20
  const PROBE := 4096
  const REEL: Bytes := [0x52, 0x45, 0x45, 0x4C]
  const SEAL: Bytes := [0x53, 0x45, 0x41, 0x4C]

  /** What is left open: which footers are whole by their checksum and their directory, and the mark's checksum. */
  datatype Rules = Rules(whole: Bytes -> bool, crc: Bytes -> int)

  // ---- the mark ----

  function MarkHead(end: nat, len: nat): (r: Bytes)
    ensures |r| == 12
  {
    Le(end, 8) + Le(len, 4)
  }

  function Check(rules: Rules, head: Bytes): (r: nat)
    ensures r < BITS_32
  {
    rules.crc(head + [0, 0, 0, 0] + SEAL) % BITS_32
  }

  /** What a seal leaves behind the rows to name its footer by. */
  function SealMark(rules: Rules, end: nat, len: nat): (r: Bytes)
    ensures |r| == MARK_LEN
  {
    MarkHead(end, len) + Le(Check(rules, MarkHead(end, len)), 4) + SEAL
  }

  datatype Place = Place(end: int, len: int)

  /** The place a mark names, or nothing for bytes that are no mark. */
  function ReadSealMark(rules: Rules, mark: Bytes): Option<Place>
    requires |mark| == MARK_LEN
  {
    if mark[16..] != SEAL || ReadLe(mark, 12, 4) != Check(rules, mark[..12]) then None
    else Some(Place(ReadLe(mark, 0, 8), ReadLe(mark, 8, 4)))
  }

  lemma MarkReadsBack(rules: Rules, end: nat, len: nat)
    requires end < BITS_64 && len < BITS_32
    ensures ReadSealMark(rules, SealMark(rules, end, len)) == Some(Place(end, len))
  {
    var mark, head := SealMark(rules, end, len), MarkHead(end, len);
    var check := Le(Check(rules, head), 4);
    assert LiesAt(mark, 0, Le(end, 8) + Le(len, 4) + check + SEAL);
    FourInTurn(mark, 0, Le(end, 8), Le(len, 4), check, SEAL);
    Le64ReadsBack(mark, 0, end);
    Le32ReadsBack(mark, 8, len);
    Le32ReadsBack(mark, 12, Check(rules, head));
    assert mark[..12] == head && mark[16..] == SEAL;
  }

  // ---- a footer's bytes ----

  /** A footer as a seal writes it: its fixed fields close it, its length and the magic last. */
  ghost predicate FooterOk(rules: Rules, f: Bytes) {
    && FIXED_TAIL_LEN <= |f| < BITS_32 && rules.whole(f)
    && LiesAt(f, |f| - 8, Le(|f|, 4)) && LiesAt(f, |f| - 4, REEL)
  }

  /** The footer that ends some bytes, or nothing where none does. */
  function ParseFooter(rules: Rules, b: Bytes): (r: Option<Bytes>)
    ensures r.Some? ==> FIXED_TAIL_LEN <= |r.value| <= |b| && r.value == b[|b| - |r.value|..] && b[|b| - 4..] == REEL
  {
    if |b| < FIXED_TAIL_LEN || b[|b| - 4..] != REEL then None
    else
      var len := ReadLe(b, |b| - 8, 4);
      if FIXED_TAIL_LEN <= len <= |b| && rules.whole(b[|b| - len..]) then Some(b[|b| - len..]) else None
  }

  lemma FooterParses(rules: Rules, f: Bytes)
    requires FooterOk(rules, f)
    ensures ParseFooter(rules, f) == Some(f)
  {
    Le32ReadsBack(f, |f| - 8, |f|);
    assert f[|f| - 4..] == f[|f| - 4..|f| - 4 + |REEL|];
    assert f[0..] == f;
  }

  // ---- the last byte that is not zero ----

  /** One past the last byte from a place on that is not zero; the place itself where all are. */
  function LastSet(b: Bytes, from: nat, until: nat): (r: nat)
    requires from <= until <= |b|
    ensures from <= r <= until && (forall i {:trigger b[i]} :: r <= i < until ==> b[i] == 0)
    ensures (r > from ==> b[r - 1] != 0)
    decreases until
  {
    if until == from || b[until - 1] != 0 then until else LastSet(b, from, until - 1)
  }

  lemma LastSetIs(b: Bytes, from: nat, r: nat)
    requires from < r <= |b| && b[r - 1] != 0 && forall i {:trigger b[i]} :: r <= i < |b| ==> b[i] == 0
    ensures LastSet(b, from, |b|) == r
  {
    assert b[r - 1] != 0;
  }

  function ProbeFrom(image: Bytes): (r: nat)
    ensures r <= |image|
  {
    if |image| <= PROBE then 0 else |image| - PROBE
  }

  // ---- the reader ----

  /** The footer that ends at a place, as long as its own length says. */
  function FooterEnding(rules: Rules, image: Bytes, end: nat): Option<Bytes>
    requires FIXED_TAIL_LEN <= end <= |image|
  {
    var len := ReadLe(image, end - 8, 4);
    if FIXED_TAIL_LEN <= len <= end then ParseFooter(rules, image[end - len..end]) else None
  }

  /** A footer that ends where the file's last probe holds its last byte that is not zero. */
  function ReadFooter(rules: Rules, image: Bytes): Option<Bytes> {
    var from := ProbeFrom(image);
    var end := LastSet(image, from, |image|);
    if end == from || end < FIXED_TAIL_LEN then None else FooterEnding(rules, image, end)
  }

  /** The footer at the place a mark names. */
  function FooterNamed(rules: Rules, image: Bytes, place: Option<Place>): Option<Bytes> {
    if place.Some? && 0 <= place.value.len <= place.value.end <= |image|
    then ParseFooter(rules, image[place.value.end - place.value.len..place.value.end]) else None
  }

  function MarkedBefore(rules: Rules, image: Bytes, last: nat): Option<Bytes>
    requires MARK_LEN <= last <= |image|
  {
    FooterNamed(rules, image, ReadSealMark(rules, image[last - MARK_LEN..last]))
  }

  /** A footer that a mark names, if one ends at that byte and lies in the probe. */
  function ReadMarked(rules: Rules, image: Bytes): Option<Bytes> {
    var from := ProbeFrom(image);
    var last := LastSet(image, from, |image|);
    if last == from || last < from + MARK_LEN then None
    else MarkedBefore(rules, image, last)
  }

  datatype Reading = Sealed(footer: Bytes) | Marked(footer: Bytes) | Journaled

  function Read(rules: Rules, image: Bytes): Reading {
    var footer := ReadFooter(rules, image);
    if footer.Some? then Sealed(footer.value)
    else
      var marked := ReadMarked(rules, image);
      if marked.Some? then Marked(marked.value) else Journaled
  }

  lemma LengthReads(image: Bytes, at: nat, f: Bytes, place: nat)
    requires 8 <= |f| < BITS_32 && LiesAt(image, at, f) && LiesAt(f, |f| - 8, Le(|f|, 4)) && place == at + |f| - 8
    ensures place + 4 <= |image| && ReadLe(image, place, 4) == |f|
  {
    LiesWithin(image, at, f, |f| - 8, Le(|f|, 4));
    Le32ReadsBack(image, place, |f|);
  }

  lemma FooterEnds(rules: Rules, image: Bytes, f: Bytes, end: nat)
    requires FooterOk(rules, f) && |f| <= end <= |image| && LiesAt(image, end - |f|, f)
    ensures FooterEnding(rules, image, end) == Some(f)
  {
    LengthReads(image, end - |f|, f, end - 8);
    FooterParses(rules, f);
    assert image[end - |f|..end] == f;
  }

  lemma FooterEndsSet(rules: Rules, image: Bytes, at: nat, f: Bytes)
    requires FooterOk(rules, f) && LiesAt(image, at, f)
    ensures image[at + |f| - 1] != 0
  {
    var last := f[|f| - 4..|f| - 4 + |REEL|];
    assert last == REEL && f[|f| - 1] == last[3];
    assert image[at + |f| - 1] == image[at..at + |f|][|f| - 1];
  }

  /** A file that ends with a footer is read by it. */
  lemma EndIsRead(rules: Rules, image: Bytes, f: Bytes)
    requires FooterOk(rules, f) && |f| <= |image| && LiesAt(image, |image| - |f|, f)
    ensures ReadFooter(rules, image) == Some(f) && Read(rules, image) == Sealed(f)
  {
    var n := |image|;
    FooterEndsSet(rules, image, n - |f|, f);
    LastSetIs(image, ProbeFrom(image), n);
    FooterEnds(rules, image, f, n);
  }

  /** The mark of a footer ends the file but for zeros. */
  ghost predicate MarkEnds(rules: Rules, image: Bytes, markEnd: nat, end: nat, len: nat) {
    && MARK_LEN <= markEnd <= |image| && image[markEnd - MARK_LEN..markEnd] == SealMark(rules, end, len)
    && forall i {:trigger image[i]} :: markEnd <= i < |image| ==> image[i] == 0
  }

  lemma MarkIsLast(rules: Rules, image: Bytes, markEnd: nat, end: nat, len: nat)
    requires MarkEnds(rules, image, markEnd, end, len)
    ensures image[markEnd - 1] != 0 && image[markEnd - 4..markEnd] == SEAL
  {
    var mark := SealMark(rules, end, len);
    assert mark[16..] == SEAL;
    assert image[markEnd - 4..markEnd] == image[markEnd - MARK_LEN..markEnd][16..];
    assert image[markEnd - 1] == image[markEnd - 4..markEnd][3];
  }

  /** A mark is no footer's end. */
  lemma MarkIsNoFooter(rules: Rules, image: Bytes, markEnd: nat, end: nat, len: nat)
    requires MarkEnds(rules, image, markEnd, end, len)
    ensures ReadFooter(rules, image) == None
  {
    MarkIsLast(rules, image, markEnd, end, len);
    var from := ProbeFrom(image);
    if from < markEnd {
      LastSetIs(image, from, markEnd);
      if markEnd >= FIXED_TAIL_LEN { NoFooterEnds(rules, image, markEnd); }
    }
  }

  lemma NoFooterEnds(rules: Rules, image: Bytes, end: nat)
    requires FIXED_TAIL_LEN <= end <= |image| && image[end - 4..end] == SEAL
    ensures FooterEnding(rules, image, end) == None
  {
    var len := ReadLe(image, end - 8, 4);
    if FIXED_TAIL_LEN <= len <= end {
      var b := image[end - len..end];
      assert b[|b| - 4..] == image[end - 4..end];
    }
  }

  /** A segment whose rows were not cut off yet is read by its mark exactly if the mark lies in the last probe. */
  lemma MarkIsRead(rules: Rules, image: Bytes, markEnd: nat, end: nat, f: Bytes)
    requires FooterOk(rules, f) && |f| <= end < BITS_64 && LiesAt(image, end - |f|, f)
    requires MarkEnds(rules, image, markEnd, end, |f|)
    ensures Read(rules, image) == if ProbeFrom(image) + MARK_LEN <= markEnd then Marked(f) else Journaled
  {
    MarkIsNoFooter(rules, image, markEnd, end, |f|);
    MarkNames(rules, image, markEnd, end, f);
  }

  lemma MarkNames(rules: Rules, image: Bytes, markEnd: nat, end: nat, f: Bytes)
    requires FooterOk(rules, f) && |f| <= end < BITS_64 && LiesAt(image, end - |f|, f)
    requires MarkEnds(rules, image, markEnd, end, |f|)
    ensures ReadMarked(rules, image) == if ProbeFrom(image) + MARK_LEN <= markEnd then Some(f) else None
  {
    var from := ProbeFrom(image);
    MarkIsLast(rules, image, markEnd, end, |f|);
    if from < markEnd { LastSetIs(image, from, markEnd); }
    MarkNamesAt(rules, image, markEnd, end, f);
  }

  lemma MarkNamesAt(rules: Rules, image: Bytes, markEnd: nat, end: nat, f: Bytes)
    requires FooterOk(rules, f) && |f| <= end < BITS_64 && LiesAt(image, end - |f|, f)
    requires MarkEnds(rules, image, markEnd, end, |f|)
    ensures MarkedBefore(rules, image, markEnd) == Some(f)
  {
    MarkReadsBack(rules, end, |f|);
    NamedIsRead(rules, image, end, f);
  }

  lemma NamedIsRead(rules: Rules, image: Bytes, end: nat, f: Bytes)
    requires FooterOk(rules, f) && |f| <= end && LiesAt(image, end - |f|, f)
    ensures FooterNamed(rules, image, Some(Place(end, |f|))) == Some(f)
  {
    FooterParses(rules, f);
    assert image[end - |f|..end] == f;
  }

  // ---- what is read of any bytes ----

  /** These bytes end at the place and are a whole footer: magic last, the length before it their own, the sum right. */
  predicate WholeAt(rules: Rules, image: Bytes, end: nat, f: Bytes) {
    && FIXED_TAIL_LEN <= |f| <= end && LiesAt(image, end - |f|, f) && rules.whole(f)
    && f[|f| - 4..] == REEL && ReadLe(f, |f| - 8, 4) == |f|
  }

  /** A whole footer ends at the last byte of the probe that is not zero. */
  predicate EndsWhole(rules: Rules, image: Bytes, f: Bytes) {
    var end := LastSet(image, ProbeFrom(image), |image|);
    ProbeFrom(image) < end && WholeAt(rules, image, end, f)
  }

  /** A mark ends with its magic, and its own sum is right. */
  predicate MarkHolds(rules: Rules, mark: Bytes)
    requires |mark| == MARK_LEN
  {
    mark[16..] == SEAL && ReadLe(mark, 12, 4) == rules.crc(mark[..12] + [0, 0, 0, 0] + SEAL) % BITS_32
  }

  /** And the bytes it names lie in the file and close with the footer. */
  predicate MarkTells(rules: Rules, image: Bytes, mark: Bytes, f: Bytes)
    requires |mark| == MARK_LEN
  {
    var end, len := ReadLe(mark, 0, 8), ReadLe(mark, 8, 4);
    MarkHolds(rules, mark) && |f| <= len <= end <= |image| && WholeAt(rules, image, end, f)
  }

  /** Such a mark ends at the last byte of the probe that is not zero, and lies in it. */
  predicate MarksWhole(rules: Rules, image: Bytes, f: Bytes) {
    var last := LastSet(image, ProbeFrom(image), |image|);
    ProbeFrom(image) + MARK_LEN <= last && MarkTells(rules, image, image[last - MARK_LEN..last], f)
  }

  lemma ParsesExactly(rules: Rules, image: Bytes, start: nat, end: nat, f: Bytes)
    requires start <= end <= |image|
    ensures ParseFooter(rules, image[start..end]) == Some(f) <==> |f| <= end - start && WholeAt(rules, image, end, f)
  {
    var b := image[start..end];
    if |b| >= FIXED_TAIL_LEN {
      assert b[|b| - 4..] == image[end - 4..end];
      TailSame(image, start, end, b);
      if FIXED_TAIL_LEN <= |f| <= |b| {
        assert b[|b| - |f|..] == image[end - |f|..end];
        if LiesAt(image, end - |f|, f) {
          assert f[|f| - 4..] == image[end - 4..end];
          TailSame(image, end - |f|, end, f);
        }
      }
    }
  }

  lemma SliceOf(b: Bytes, start: nat, end: nat, from: nat, until: nat)
    requires start <= end <= |b| && from <= until <= end - start
    ensures b[start..end][from..until] == b[start + from..start + until]
  {
    var some, same := b[start..end][from..until], b[start + from..start + until];
    forall i | 0 <= i < |some| ensures some[i] == same[i] {
      assert b[start..end][from + i] == b[start + (from + i)];
    }
  }

  /** The length that closes a piece is the same read in the piece. */
  lemma TailSame(image: Bytes, start: nat, end: nat, b: Bytes)
    requires start + 8 <= end <= |image| && b == image[start..end]
    ensures ReadLe(b, |b| - 8, 4) == ReadLe(image, end - 8, 4)
  {
    var at := |b| - 8;
    SliceOf(image, start, end, at, at + 4);
    ReadsSame(b, at, image, start + at, 4);
  }

  lemma {:induction false} ReadsSame(a: Bytes, i: nat, b: Bytes, j: nat, n: nat)
    requires i + n <= |a| && j + n <= |b| && a[i..i + n] == b[j..j + n]
    ensures ReadLe(a, i, n) == ReadLe(b, j, n)
    decreases n
  {
    if n > 0 {
      assert a[i] == a[i..i + n][0] && b[j] == b[j..j + n][0];
      assert a[i + 1..i + n] == a[i..i + n][1..] && b[j + 1..j + n] == b[j..j + n][1..];
      ReadsSame(a, i + 1, b, j + 1, n - 1);
    }
  }

  /** A whole footer is as long as the bytes before its magic say. */
  lemma WholeSays(rules: Rules, image: Bytes, end: nat, f: Bytes)
    requires end <= |image| && WholeAt(rules, image, end, f)
    ensures ReadLe(image, end - 8, 4) == |f|
  {
    assert f == image[end - |f|..end];
    TailSame(image, end - |f|, end, f);
  }

  lemma EndingExactly(rules: Rules, image: Bytes, end: nat, f: Bytes)
    requires FIXED_TAIL_LEN <= end <= |image|
    ensures FooterEnding(rules, image, end) == Some(f) <==> WholeAt(rules, image, end, f)
  {
    var len := ReadLe(image, end - 8, 4);
    if FIXED_TAIL_LEN <= len <= end { ParsesExactly(rules, image, end - len, end, f); }
    if WholeAt(rules, image, end, f) { WholeSays(rules, image, end, f); }
  }

  lemma EndsExactly(rules: Rules, image: Bytes, f: Bytes)
    ensures ReadFooter(rules, image) == Some(f) <==> EndsWhole(rules, image, f)
  {
    var end := LastSet(image, ProbeFrom(image), |image|);
    if FIXED_TAIL_LEN <= end { EndingExactly(rules, image, end, f); }
  }

  lemma MarkReads(rules: Rules, mark: Bytes)
    requires |mark| == MARK_LEN
    ensures ReadSealMark(rules, mark)
         == if MarkHolds(rules, mark) then Some(Place(ReadLe(mark, 0, 8), ReadLe(mark, 8, 4))) else None
  {}

  lemma NamedExactly(rules: Rules, image: Bytes, end: int, len: int, f: Bytes)
    ensures FooterNamed(rules, image, Some(Place(end, len))) == Some(f) <==>
      |f| <= len <= end <= |image| && WholeAt(rules, image, end, f)
  {
    if 0 <= len <= end <= |image| { ParsesExactly(rules, image, end - len, end, f); }
  }

  lemma MarkedExactly(rules: Rules, image: Bytes, mark: Bytes, f: Bytes)
    requires |mark| == MARK_LEN
    ensures FooterNamed(rules, image, ReadSealMark(rules, mark)) == Some(f) <==> MarkTells(rules, image, mark, f)
  {
    MarkReads(rules, mark);
    NamedExactly(rules, image, ReadLe(mark, 0, 8), ReadLe(mark, 8, 4), f);
  }

  lemma MarksExactly(rules: Rules, image: Bytes, f: Bytes)
    ensures ReadMarked(rules, image) == Some(f) <==> MarksWhole(rules, image, f)
  {
    var last := LastSet(image, ProbeFrom(image), |image|);
    if ProbeFrom(image) + MARK_LEN <= last { MarkedExactly(rules, image, image[last - MARK_LEN..last], f); }
  }

  /**
   Main result: of any bytes. A segment reads by the whole footer its last probe ends with, if there is one; else by the
   whole footer that a mark there names, if there is one; and else from its rows. So no footer is ever read that is
   not whole.
   */
  lemma ReadsExactly(rules: Rules, image: Bytes, f: Bytes)
    ensures Read(rules, image) == Sealed(f) <==> EndsWhole(rules, image, f)
    ensures Read(rules, image) == Marked(f) <==>
      (forall g :: !EndsWhole(rules, image, g)) && MarksWhole(rules, image, f)
    ensures Read(rules, image) == Journaled <==>
      forall g :: !EndsWhole(rules, image, g) && !MarksWhole(rules, image, g)
    ensures !Read(rules, image).Journaled? ==> rules.whole(Read(rules, image).footer)
  {
    forall g
      ensures ReadFooter(rules, image) == Some(g) <==> EndsWhole(rules, image, g)
      ensures ReadMarked(rules, image) == Some(g) <==> MarksWhole(rules, image, g)
    {
      EndsExactly(rules, image, g);
      MarksExactly(rules, image, g);
    }
  }
}
