/**
 Journal groups as they lie in a segment file: a count and a length, the rows, and a checksum over both. The
 checksum is any function of the bytes it covers.
 */
module JournalFormat {
  import opened ByteStrings
  import opened Common
  import opened Numbers

  const GROUP_HEAD := 8
  const MAX_KEY_LEN := 1056

  /** Stands for the end of a range delete that has none. */
  const NO_END := 0xFFFF

  datatype JournalRow = JournalRow(column: int, key: Bytes, lsn: int, offset: int, len: int, flags: int,
    rangeEnd: Option<Bytes>)

  // ---- flags ----

  /** At most one of the five kind bits, perhaps the mark of a relocated record, but no mark on a control record. */
  predicate KnownFlags(f: int) {
    0 <= f < 0x80 && f % 0x20 in {0, 1, 2, 4, 8, 16} && f / 0x20 in {0, 2} && !(f % 0x20 == 8 && f / 0x20 == 2)
  }

  predicate IsRange(f: int) { f / 2 % 2 == 1 }

  /** What a writer puts in a row: a range has an end or runs on, nothing else has one. */
  predicate RowOk(r: JournalRow) {
    && |r.key| <= MAX_KEY_LEN && 0 <= r.lsn < BITS_64 && 0 <= r.offset < BITS_32 && 0 <= r.len < BITS_32
      && KnownFlags(r.flags)
    && (r.rangeEnd.Some? ==> IsRange(r.flags) && |r.rangeEnd.value| <= MAX_KEY_LEN)
  }

  // ---- one row ----

  function EndBytes(r: JournalRow): Bytes {
    if !IsRange(r.flags) then []
    else if r.rangeEnd.Some? then Le(|r.rangeEnd.value|, 2) + r.rangeEnd.value
    else Le(NO_END, 2)
  }

  /** The sequence, offset and length, and the flags. */
  function TailBytes(r: JournalRow): (b: Bytes)
    requires RowOk(r)
    ensures |b| == 17
  {
    Le(r.lsn, 8) + Le(r.offset, 4) + Le(r.len, 4) + [r.flags]
  }

  function RowBytes(r: JournalRow): Bytes
    requires RowOk(r)
  {
    [r.column] + Le(|r.key|, 2) + r.key + (TailBytes(r) + EndBytes(r))
  }

  datatype Got<T> = Got(value: T, next: int)

  /** A range's end: None here is a row cut short or too wide, and Some holds what it says. */
  function ReadEnd(bytes: Bytes, at: nat, flags: int): Option<Got<Option<Bytes>>> {
    if !IsRange(flags) then Some(Got(None, at))
    else if at + 2 > |bytes| then None
    else
      var len := ReadLe(bytes, at, 2);
      if len == NO_END then Some(Got(None, at + 2))
      else if len < 0 || at + 2 + len > |bytes| || len > MAX_KEY_LEN then None
      else Some(Got(Some(bytes[at + 2..at + 2 + len]), at + 2 + len))
  }

  function ReadRow(bytes: Bytes, at: nat): (r: Option<Got<JournalRow>>)
    ensures r.Some? ==> at < r.value.next
  {
    if at + 3 > |bytes| then None
    else
      var width := ReadLe(bytes, at + 1, 2);
      if width < 0 || width > MAX_KEY_LEN || at + 3 + width + 17 > |bytes| then None
      else
        var tail := at + 3 + width;
        var flags := bytes[tail + 16];
        if !KnownFlags(flags) then None
        else
          var end := ReadEnd(bytes, tail + 17, flags);
          if end.None? then None
          else Some(Got(JournalRow(bytes[at], bytes[at + 3..tail], ReadLe(bytes, tail, 8), ReadLe(bytes, tail + 8, 4),
            ReadLe(bytes, tail + 12, 4),
                                   flags, end.value.value), end.value.next))
  }

  lemma EndReadsBack(bytes: Bytes, at: nat, next: nat, r: JournalRow)
    requires RowOk(r) && LiesAt(bytes, at, EndBytes(r)) && next == at + |EndBytes(r)|
    ensures ReadEnd(bytes, at, r.flags) == Some(Got(r.rangeEnd, next))
  {
    if IsRange(r.flags) {
      if r.rangeEnd.Some? {
        LieInTurn(bytes, at, Le(|r.rangeEnd.value|, 2), r.rangeEnd.value);
        Le16ReadsBack(bytes, at, |r.rangeEnd.value|);
      } else {
        Le16ReadsBack(bytes, at, NO_END);
      }
    }
  }

  lemma TailReadsBack(bytes: Bytes, at: nat, r: JournalRow)
    requires RowOk(r) && LiesAt(bytes, at, TailBytes(r))
    ensures at + 17 <= |bytes| && ReadLe(bytes, at, 8) == r.lsn && ReadLe(bytes, at + 8, 4) == r.offset
    ensures ReadLe(bytes, at + 12, 4) == r.len && bytes[at + 16] == r.flags
  {
    FourInTurn(bytes, at, Le(r.lsn, 8), Le(r.offset, 4), Le(r.len, 4), [r.flags]);
    Le64ReadsBack(bytes, at, r.lsn);
    Le32ReadsBack(bytes, at + 8, r.offset);
    Le32ReadsBack(bytes, at + 12, r.len);
    assert bytes[at + 16] == bytes[at + 16..at + 17][0];
  }

  /** A row whose parts read as they should. */
  lemma RowReads(bytes: Bytes, at: nat, tail: nat, next: int, r: JournalRow)
    requires RowOk(r) && tail == at + 3 + |r.key| && tail + 17 <= |bytes| && bytes[at] == r.column
    requires ReadLe(bytes, at + 1, 2) == |r.key| && bytes[at + 3..tail] == r.key
    requires ReadLe(bytes, tail, 8) == r.lsn && ReadLe(bytes, tail + 8, 4) == r.offset
    requires ReadLe(bytes, tail + 12, 4) == r.len && bytes[tail + 16] == r.flags
    requires ReadEnd(bytes, tail + 17, r.flags) == Some(Got(r.rangeEnd, next))
    ensures ReadRow(bytes, at) == Some(Got(r, next))
  {}

  lemma RowReadsBack(bytes: Bytes, at: nat, next: nat, r: JournalRow)
    requires RowOk(r) && LiesAt(bytes, at, RowBytes(r)) && next == at + |RowBytes(r)|
    ensures ReadRow(bytes, at) == Some(Got(r, next))
  {
    RowPartsReadBack(bytes, at, at + 3 + |r.key|, next, r, Le(|r.key|, 2), TailBytes(r), EndBytes(r));
  }

  lemma RowPartsReadBack(bytes: Bytes, at: nat, tail: nat, next: nat, r: JournalRow, w: Bytes, t: Bytes, e: Bytes)
    requires RowOk(r) && w == Le(|r.key|, 2) && t == TailBytes(r) && e == EndBytes(r)
    requires LiesAt(bytes, at, [r.column] + w + r.key + (t + e)) && tail == at + 3 + |r.key| && next == tail + 17 + |e|
    ensures ReadRow(bytes, at) == Some(Got(r, next))
  {
    FourInTurn(bytes, at, [r.column], w, r.key, t + e);
    LieInTurn(bytes, tail, t, e);
    assert bytes[at] == bytes[at..at + 1][0];
    Le16ReadsBack(bytes, at + 1, |r.key|);
    TailReadsBack(bytes, tail, r);
    EndReadsBack(bytes, tail + 17, next, r);
    RowReads(bytes, at, tail, next, r);
  }

  // ---- one group ----

  /** The rows of one landed write. */
  type Group = seq<JournalRow>

  type Checksum = Bytes -> int

  predicate RowsOk(g: Group) { forall i {:trigger g[i]} :: 0 <= i < |g| ==> RowOk(g[i]) }

  function Body(g: Group): Bytes
    requires RowsOk(g)
    decreases |g|, 1
  {
    if g == [] then [] else BodyFrom(g)
  }

  function BodyFrom(g: Group): Bytes
    requires RowsOk(g) && g != []
    decreases |g|, 0
  {
    RowBytes(g[0]) + Body(g[1..])
  }

  lemma {:induction false} BodyGrows(g: Group, row: JournalRow)
    requires RowsOk(g) && RowOk(row)
    ensures RowsOk(g + [row]) && Body(g + [row]) == Body(g) + RowBytes(row)
    decreases |g|
  {
    var more := g + [row];
    if g == [] {
      assert more[1..] == [] && Body(more) == BodyFrom(more);
    } else {
      BodyGrows(g[1..], row);
      assert more[1..] == g[1..] + [row] && more[0] == g[0];
      var first, rest := RowBytes(g[0]), Body(g[1..]);
      assert Body(g) == BodyFrom(g) == first + rest;
      assert Body(more) == BodyFrom(more) == first + (rest + RowBytes(row));
    }
  }

  /** A group of at least one row, small enough for its counts to take four bytes. */
  predicate GroupOk(g: Group) { RowsOk(g) && 0 < |g| < BITS_32 && |Body(g)| < BITS_32 }

  function Covered(g: Group): Bytes
    requires GroupOk(g)
  {
    Le(|g|, 4) + Le(|Body(g)|, 4) + Body(g)
  }

  function GroupBytes(g: Group, crc: Checksum): (b: Bytes)
    requires GroupOk(g)
    ensures |b| == GROUP_HEAD + |Body(g)| + 4
  {
    Covered(g) + Le(crc(Covered(g)) % BITS_32, 4)
  }

  /** So many rows one behind the other. */
  function ReadRows(bytes: Bytes, at: nat, count: nat): Option<Got<Group>>
    decreases count
  {
    if count == 0 then Some(Got([], at))
    else
      var row := ReadRow(bytes, at);
      if row.None? then None
      else
        var rest := ReadRows(bytes, row.value.next, count - 1);
        if rest.None? then None else Some(Got([row.value.value] + rest.value.value, rest.value.next))
  }

  /** A group read at a place, or nothing where the bytes there are none: cut short, empty or of another sum. */
  function ReadGroup(bytes: Bytes, at: nat, crc: Checksum): (r: Option<Got<Group>>)
    ensures r.Some? ==> at + 12 <= r.value.next <= |bytes|
  {
    if at + GROUP_HEAD > |bytes| then None
    else
      var count, body := ReadLe(bytes, at, 4), ReadLe(bytes, at + 4, 4);
      var end := at + GROUP_HEAD + body;
      if body < 0 || end + 4 > |bytes| || count <= 0 || crc(bytes[at..end]) % BITS_32 != ReadLe(bytes, end, 4) then None
      else
        var rows := ReadRows(bytes[..end], at + GROUP_HEAD, count);
        if rows.None? || rows.value.next != end then None else Some(Got(rows.value.value, end + 4))
  }

  /** Bytes that bear a group's head and a checksum that holds for it and the rows behind it. */
  predicate Passes(bytes: Bytes, at: nat, crc: Checksum) {
    && at + GROUP_HEAD <= |bytes| && ReadLe(bytes, at, 4) > 0 && ReadLe(bytes, at + 4, 4) >= 0
    && var end := at + GROUP_HEAD + ReadLe(bytes, at + 4, 4);
       end + 4 <= |bytes| && crc(bytes[at..end]) % BITS_32 == ReadLe(bytes, end, 4)
  }

  /** Whatever reads as a group is of some rows, as many and as long as its head says, and has its checksum. */
  lemma GroupsPass(bytes: Bytes, at: nat, crc: Checksum, g: Group, next: int)
    requires ReadGroup(bytes, at, crc) == Some(Got(g, next))
    ensures Passes(bytes, at, crc) && g != []
    ensures next == at + GROUP_HEAD + ReadLe(bytes, at + 4, 4) + 4
    ensures crc(bytes[at..next - 4]) % BITS_32 == ReadLe(bytes, next - 4, 4)
    ensures |g| == ReadLe(bytes, at, 4) && ReadRows(bytes[..next - 4], at + GROUP_HEAD, |g|) == Some(Got(g, next - 4))
  {
    RowsCounted(bytes[..next - 4], at + GROUP_HEAD, ReadLe(bytes, at, 4));
  }

  lemma {:induction false} RowsCounted(bytes: Bytes, at: nat, count: nat)
    ensures ReadRows(bytes, at, count).Some? ==> |ReadRows(bytes, at, count).value.value| == count
    decreases count
  {
    if count > 0 {
      var row := ReadRow(bytes, at);
      if row.Some? { RowsCounted(bytes, row.value.next, count - 1); }
    }
  }

  lemma ReadRowsOn(bytes: Bytes, at: nat, count: nat, row: JournalRow, mid: nat, rest: Group, next: int)
    requires count > 0 && ReadRow(bytes, at) == Some(Got(row, mid))
    requires ReadRows(bytes, mid, count - 1) == Some(Got(rest, next))
    ensures ReadRows(bytes, at, count) == Some(Got([row] + rest, next))
  {}

  lemma {:induction false} RowsReadBack(bytes: Bytes, at: nat, next: nat, g: Group, body: Bytes)
    requires RowsOk(g) && body == Body(g) && LiesAt(bytes, at, body) && next == at + |body|
    ensures ReadRows(bytes, at, |g|) == Some(Got(g, next))
    decreases |g|
  {
    if g != [] {
      var b, rest := RowBytes(g[0]), Body(g[1..]);
      assert body == BodyFrom(g) == b + rest;
      LieInTurn(bytes, at, b, rest);
      RowReadsBack(bytes, at, at + |b|, g[0]);
      RowsReadBack(bytes, at + |b|, next, g[1..], rest);
      ReadRowsOn(bytes, at, |g|, g[0], at + |b|, g[1..], next);
      assert [g[0]] + g[1..] == g;
    }
  }

  lemma LiesInFront(bytes: Bytes, end: nat, at: nat, piece: Bytes)
    requires LiesAt(bytes, at, piece) && at + |piece| <= end <= |bytes|
    ensures LiesAt(bytes[..end], at, piece)
  {
    assert bytes[..end][at..at + |piece|] == bytes[at..at + |piece|];
  }

  /** A group whose parts read as they should. */
  lemma GroupReads(bytes: Bytes, at: nat, end: nat, next: nat, g: Group, crc: Checksum, len: nat, covered: Bytes,
                   sum: int)
    requires at + GROUP_HEAD + len == end && end + 4 == next <= |bytes| && |g| > 0 && bytes[at..end] == covered
    requires ReadLe(bytes, at, 4) == |g| && ReadLe(bytes, at + 4, 4) == len
    requires ReadLe(bytes, end, 4) == sum == crc(covered) % BITS_32
    requires ReadRows(bytes[..end], at + GROUP_HEAD, |g|) == Some(Got(g, end))
    ensures ReadGroup(bytes, at, crc) == Some(Got(g, next))
  {}

  /** A group reads back whole from wherever it lies. */
  lemma GroupReadsBack(bytes: Bytes, at: nat, next: nat, g: Group, crc: Checksum, b: Bytes)
    requires GroupOk(g) && b == GroupBytes(g, crc) && LiesAt(bytes, at, b) && next == at + |b|
    ensures ReadGroup(bytes, at, crc) == Some(Got(g, next))
  {
    PartsReadBack(bytes, at, next - 4, next, g, crc, Le(|g|, 4), Le(|Body(g)|, 4), Body(g), Covered(g));
  }

  lemma HeadReadsBack(bytes: Bytes, at: nat, end: nat, count: nat, len: nat, body: Bytes, sum: nat)
    requires count < BITS_32 && len < BITS_32 && sum < BITS_32 && end == at + GROUP_HEAD + |body|
    requires LiesAt(bytes, at, Le(count, 4) + Le(len, 4) + body) && LiesAt(bytes, end, Le(sum, 4))
    ensures end + 4 <= |bytes| && ReadLe(bytes, at, 4) == count && ReadLe(bytes, at + 4, 4) == len
    ensures ReadLe(bytes, end, 4) == sum
    ensures LiesAt(bytes, at + GROUP_HEAD, body)
  {
    LieInTurn(bytes, at, Le(count, 4) + Le(len, 4), body);
    LieInTurn(bytes, at, Le(count, 4), Le(len, 4));
    Le32ReadsBack(bytes, at, count);
    Le32ReadsBack(bytes, at + 4, len);
    Le32ReadsBack(bytes, end, sum);
  }

  lemma PartsReadBack(bytes: Bytes, at: nat, end: nat, next: nat, g: Group, crc: Checksum, count: Bytes, len: Bytes,
                      body: Bytes, covered: Bytes)
    requires GroupOk(g) && body == Body(g) && count == Le(|g|, 4) && len == Le(|body|, 4)
    requires covered == count + len + body
    requires LiesAt(bytes, at, covered + Le(crc(covered) % BITS_32, 4)) && end == at + |covered| && next == end + 4
    ensures ReadGroup(bytes, at, crc) == Some(Got(g, next))
  {
    var sum := crc(covered) % BITS_32;
    LieInTurn(bytes, at, covered, Le(sum, 4));
    HeadReadsBack(bytes, at, end, |g|, |body|, body, sum);
    LiesInFront(bytes, end, at + 8, body);
    RowsReadBack(bytes[..end], at + 8, end, g, body);
    GroupReads(bytes, at, end, next, g, crc, |body|, covered, sum);
  }

  // ---- as the code goes about it ----

  /**
   Lays a group out behind what a buffer holds; its head can be filled in only once the length of its rows is known.
   */
  method PushGroup(out: Bytes, g: Group, crc: Checksum) returns (r: Bytes)
    requires GroupOk(g)
    ensures r == out + GroupBytes(g, crc)
  {
    var body: Bytes := [];
    for i := 0 to |g|
      invariant RowsOk(g[..i]) && body == Body(g[..i])
    {
      BodyGrows(g[..i], g[i]);
      assert g[..i + 1] == g[..i] + [g[i]];
      body := body + RowBytes(g[i]);
    }
    assert g[..|g|] == g;
    var covered := Le(|g|, 4) + Le(|body|, 4) + body;
    r := out + (covered + Le(crc(covered) % BITS_32, 4));
  }

  /** Rows read so far, with what the rest reads as. */
  function Then(rows: Group, rest: Option<Got<Group>>): Option<Got<Group>> {
    if rest.None? then None else Some(Got(rows + rest.value.value, rest.value.next))
  }

  lemma ThenOn(rows: Group, row: JournalRow, rest: Option<Got<Group>>)
    ensures Then(rows, Then([row], rest)) == Then(rows + [row], rest)
  {
    assert rest.Some? ==> rows + ([row] + rest.value.value) == rows + [row] + rest.value.value;
  }

  /** Read so many rows, stopping at the first that does not read. */
  method ReadRowsInTurn(bytes: Bytes, at: nat, count: nat) returns (r: Option<Got<Group>>)
    ensures r == ReadRows(bytes, at, count)
  {
    var rows: Group, cursor := [], at;
    ThenNothing(ReadRows(bytes, at, count));
    for i := 0 to count
      invariant 0 <= cursor && ReadRows(bytes, at, count) == Then(rows, ReadRows(bytes, cursor, count - i))
    {
      var row := ReadRow(bytes, cursor);
      if row.None? {
        return None;
      }
      ThenOn(rows, row.value.value, ReadRows(bytes, row.value.next, count - i - 1));
      rows, cursor := rows + [row.value.value], row.value.next;
    }
    assert rows + [] == rows;
    return Some(Got(rows, cursor));
  }

  lemma ThenNothing(rest: Option<Got<Group>>)
    ensures Then([], rest) == rest
  {
    assert rest.Some? ==> [] + rest.value.value == rest.value.value;
  }
}
