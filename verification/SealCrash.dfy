/**
 Sealing a segment, with a crash at any point. The footer goes down between the records and the journal's rows,
 a mark that names it goes down behind the rows, both are synced, and only then are the rows cut off. Before the
 sync a crash leaves the rows that were on the device; from the sync on a reopened segment is read by that very
 footer, at the end of the file or by the mark, or, where the mark is out of the reader's sight, from its rows, those
 written by the seal included, which are all still whole.
 */
module SealCrash {
  import opened ByteStrings
  import opened Common
  import opened Numbers
  import opened SealReader

  const BLOCK := 4096

  // ---- the file ----

  datatype Op = Write(at: nat, bytes: Bytes) | Cut(len: nat)

  /** What a crash may leave of one operation: of a write any of its bytes, of a cut all or nothing. */
  ghost predicate May(before: Bytes, op: Op, after: Bytes) {
    match op
    case Write(at, bytes) =>
      && |before| <= |after| && |after| <= (if |before| < at + |bytes| then at + |bytes| else |before|)
      && forall i {:trigger after[i]} :: 0 <= i < |before| && !(at <= i < at + |bytes|) ==> after[i] == before[i]
    case Cut(len) => after == before || (len <= |before| && after == before[..len])
  }

  /** What a crash may leave of a synced file and the operations since. */
  ghost predicate Leaves(durable: Bytes, ops: seq<Op>, image: Bytes)
    decreases |ops|
  {
    if ops == [] then image == durable
    else
      var init, last := ops[..|ops| - 1], ops[|ops| - 1];
      exists mid :: Leaves(durable, init, mid) && May(mid, last, image)
  }

  function Zeros(n: nat): (z: Bytes)
    ensures |z| == n
  {
    seq(n, i => 0)
  }

  /** An operation done whole. */
  function Did(file: Bytes, op: Op): (r: Bytes)
    ensures op.Write? ==> LiesAt(r, op.at, op.bytes) && |r| >= |file|
    ensures op.Write? ==> forall i {:trigger r[i]} ::
      0 <= i < |file| && !(op.at <= i < op.at + |op.bytes|) ==> r[i] == file[i]
    ensures op.Cut? ==> r == if op.len <= |file| then file[..op.len] else file
  {
    match op
    case Write(at, bytes) =>
      var base := if |file| < at then file + Zeros(at - |file|) else file;
      base[..at] + bytes + (if at + |bytes| <= |base| then base[at + |bytes|..] else [])
    case Cut(len) => if len <= |file| then file[..len] else file
  }

  /** A crash may leave all of an operation, or nothing. */
  lemma MayDo(before: Bytes, op: Op)
    ensures May(before, op, before) && May(before, op, Did(before, op))
  {}

  /** What the file holds behind an operation: all it does if it came back, and otherwise any part of it. */
  function Came(file: Bytes, op: Op, ok: bool, left: Bytes): Bytes { if ok then Did(file, op) else left }

  // ---- the segment ----

  /** Where the records end, where the rows start, the rows on the device before the seal, and those still to write. */
  datatype Segment = Segment(end: nat, rowsAt: nat, rows: Bytes, tail: Bytes)

  /** The rows on the device before the seal are whole. */
  predicate RowsIntact(seg: Segment, image: Bytes) { LiesAt(image, seg.rowsAt, seg.rows) }

  /** So are those the seal wrote behind them. */
  predicate AllRows(seg: Segment, image: Bytes) { LiesAt(image, seg.rowsAt, seg.rows + seg.tail) }

  function RowsEnd(seg: Segment): nat { seg.rowsAt + |seg.rows| + |seg.tail| }

  /** The mark ends the block behind the last row. */
  function MarkEnd(seg: Segment): (r: nat)
    ensures r % BLOCK == 0 && RowsEnd(seg) + BLOCK <= r < RowsEnd(seg) + 2 * BLOCK
  {
    (RowsEnd(seg) + BLOCK - 1) / BLOCK * BLOCK + BLOCK
  }

  function Mark(rules: Rules, seg: Segment, footer: Bytes): (r: Bytes)
    ensures |r| == MARK_LEN
  {
    SealMark(rules, seg.end + |footer|, |footer|)
  }

  /** Zeros up to the mark. */
  function MarkBlock(rules: Rules, seg: Segment, footer: Bytes): (r: Bytes)
    ensures |r| == BLOCK
  {
    Zeros(BLOCK - MARK_LEN) + Mark(rules, seg, footer)
  }

  /** Behind the mark's block the file holds nothing but zeros laid ahead. */
  predicate ZerosBehind(seg: Segment, file: Bytes) {
    forall i {:trigger file[i]} :: MarkEnd(seg) <= i < |file| ==> file[i] == 0
  }

  // ---- the seal ----

  datatype Pc = Idle | Laid | Stamped | Kept | Trimmed | Done

  datatype State = State(
    file: Bytes,            // what the file holds
    durable: Bytes,         // what it held at the last sync that came back
    ops: seq<Op>,           // the operations since
    pc: Pc,
    footer: Bytes,          // the one this attempt writes
    footers: set<Bytes>,    // those of all attempts
    down: bool,             // whether the write of the tail has come back whole
    trimmed: bool)          // whether an attempt has gone as far as the cut

  /** Footer and mark have been synced, and the tail's rows with them. */
  predicate IsFar(s: State) { s.pc.Kept? || s.trimmed }

  /** Every row that was synced is whole, or the reader finds one of the footers that attempts wrote. */
  ghost predicate Safe(rules: Rules, seg: Segment, s: State, image: Bytes) {
    || (if IsFar(s) then AllRows(seg, image) else RowsIntact(seg, image))
    || (!Read(rules, image).Journaled? && Read(rules, image).footer in s.footers)
  }

  /** A step that fails leaves any part of what it does in the file, and ends the attempt. */
  datatype Step =
    | WriteFooter(footer: Bytes, ok: bool, left: Bytes)
    | WriteMark(wrote: bool, ok: bool, left: Bytes)
    | Sync(ok: bool)
    | Trim(ok: bool, left: Bytes)
    | SyncEnd(ok: bool)

  ghost predicate Possible(rules: Rules, seg: Segment, s: State, step: Step) {
    match step
    case WriteFooter(footer, ok, left) =>
      && s.pc.Idle? && FooterOk(rules, footer) && seg.end + |footer| < seg.rowsAt < BITS_64
      && (!ok ==> May(s.file, Write(seg.end, footer), left))
    case WriteMark(wrote, ok, left) =>
      && s.pc.Laid? && (s.down ==> wrote) && (!wrote ==> May(s.file, WriteRows(seg, s.down), left))
      && (wrote && !ok ==> May(Did(s.file, WriteRows(seg, s.down)), StampMark(rules, seg, s.footer), left))
    case Sync(_) => s.pc.Stamped?
    case Trim(ok, left) => s.pc.Kept? && (!ok ==> May(s.file, CutRows(seg, s.footer), left))
    case SyncEnd(_) => s.pc.Trimmed?
  }

  /** The rows still to write: none, once a write of them has come back whole. */
  function WriteRows(seg: Segment, down: bool): Op {
    Write(seg.rowsAt + |seg.rows|, if down then [] else seg.tail)
  }

  function StampMark(rules: Rules, seg: Segment, footer: Bytes): Op {
    Write(MarkEnd(seg) - BLOCK, MarkBlock(rules, seg, footer))
  }

  function CutRows(seg: Segment, footer: Bytes): Op { Cut(seg.end + |footer|) }

  function Apply(rules: Rules, seg: Segment, s: State, step: Step): State {
    match step
    case WriteFooter(footer, ok, left) =>
      s.(file := Came(s.file, Write(seg.end, footer), ok, left), ops := s.ops + [Write(seg.end, footer)],
         footer := footer, footers := s.footers + {footer}, pc := if ok then Laid else Idle)
    case WriteMark(wrote, ok, left) =>
      var rows, mark := WriteRows(seg, s.down), StampMark(rules, seg, s.footer);
      // The mark goes down only behind rows that came back whole
      if wrote then
        s.(file := Came(Did(s.file, rows), mark, ok, left), ops := s.ops + [rows] + [mark], down := true,
           pc := if ok then Stamped else Idle)
      else s.(file := left, ops := s.ops + [rows], pc := Idle)
    case Sync(ok) => if ok then s.(durable := s.file, ops := [], pc := Kept) else s.(pc := Idle)
    case Trim(ok, left) =>
      s.(file := Came(s.file, CutRows(seg, s.footer), ok, left), ops := s.ops + [CutRows(seg, s.footer)],
         trimmed := true, pc := if ok then Trimmed else Idle)
    case SyncEnd(ok) => if ok then s.(durable := s.file, ops := [], pc := Done) else s.(pc := Idle)
  }

  /** A footer written whole. */
  function Whole(footer: Bytes): Step { WriteFooter(footer, true, []) }

  /** A run of attempts; in a strict one none starts once an earlier one has gone as far as the cut. */
  ghost predicate IsRun(rules: Rules, seg: Segment, s: State, steps: seq<Step>, t: State, strict: bool)
    decreases |steps|
  {
    if steps == [] then s == t
    else
      && Possible(rules, seg, s, steps[0]) && (strict && steps[0].WriteFooter? ==> !s.trimmed)
      && IsRun(rules, seg, Apply(rules, seg, s, steps[0]), steps[1..], t, strict)
  }

  // ---- what stays until the cut ----

  /** A write that touches no byte of the rows, nor any behind the mark. */
  predicate Spares(seg: Segment, op: Op) {
    && op.Write? && (op.at + |op.bytes| <= seg.rowsAt || seg.rowsAt + |seg.rows| <= op.at)
    && op.at + |op.bytes| <= MarkEnd(seg)
  }

  predicate AllSpare(seg: Segment, ops: seq<Op>) {
    forall i {:trigger ops[i]} :: 0 <= i < |ops| ==> Spares(seg, ops[i])
  }

  lemma RowsStay(seg: Segment, before: Bytes, op: Op, after: Bytes)
    requires RowsIntact(seg, before) && Spares(seg, op) && |before| <= |after|
    requires forall i {:trigger after[i]} ::
      0 <= i < |before| && !(op.at <= i < op.at + |op.bytes|) ==> after[i] == before[i]
    ensures RowsIntact(seg, after)
  {
    var n := seg.rowsAt + |seg.rows|;
    forall i | seg.rowsAt <= i < n ensures after[i] == seg.rows[i - seg.rowsAt] {
      assert before[i] == before[seg.rowsAt..n][i - seg.rowsAt];
    }
    assert after[seg.rowsAt..n] == seg.rows;
  }

  lemma {:induction false} RowsOutlast(seg: Segment, durable: Bytes, ops: seq<Op>, image: Bytes)
    requires RowsIntact(seg, durable) && AllSpare(seg, ops) && Leaves(durable, ops, image)
    ensures RowsIntact(seg, image)
    decreases |ops|
  {
    if ops != [] {
      var init, last := ops[..|ops| - 1], ops[|ops| - 1];
      var mid :| Leaves(durable, init, mid) && May(mid, last, image);
      RowsOutlast(seg, durable, init, mid);
      RowsStay(seg, mid, last, image);
    }
  }

  /** Rows whole, and nothing behind the mark. */
  predicate BaseOk(seg: Segment, file: Bytes) { RowsIntact(seg, file) && ZerosBehind(seg, file) }

  lemma BaseStays(seg: Segment, file: Bytes, op: Op, after: Bytes)
    requires BaseOk(seg, file) && Spares(seg, op) && (after == Did(file, op) || May(file, op, after))
    ensures BaseOk(seg, after)
  {
    RowsStay(seg, file, op, after);
  }

  // ---- what a synced seal leaves ----

  lemma DidSpares(file: Bytes, op: Op, at: nat, piece: Bytes, after: Bytes)
    requires LiesAt(file, at, piece) && op.Write? && (op.at + |op.bytes| <= at || at + |piece| <= op.at)
    requires after == Did(file, op) || May(file, op, after)
    ensures LiesAt(after, at, piece)
  {
    forall i | at <= i < at + |piece| ensures after[i] == piece[i - at] {
      assert file[i] == file[at..at + |piece|][i - at];
    }
    assert after[at..at + |piece|] == piece;
  }

  /** Footer down before the rows, the mark that names it last behind them. */
  ghost predicate KeptOk(rules: Rules, seg: Segment, file: Bytes, footer: Bytes) {
    && FooterOk(rules, footer) && seg.end + |footer| < seg.rowsAt < BITS_64 && LiesAt(file, seg.end, footer)
    && MarkEnds(rules, file, MarkEnd(seg), seg.end + |footer|, |footer|)
  }

  /** The mark goes down where the reader looks for it, and leaves the footer as it is. */
  lemma MarkWritten(rules: Rules, seg: Segment, file: Bytes, footer: Bytes, down: bool, after: Bytes)
    requires after == Did(Did(file, WriteRows(seg, down)), StampMark(rules, seg, footer))
    requires FooterOk(rules, footer) && seg.end + |footer| < seg.rowsAt < BITS_64 && LiesAt(file, seg.end, footer)
    requires ZerosBehind(seg, after)
    ensures KeptOk(rules, seg, after, footer)
  {
    var first, mark := Did(file, WriteRows(seg, down)), Mark(rules, seg, footer);
    DidSpares(file, WriteRows(seg, down), seg.end, footer, first);
    DidSpares(first, StampMark(rules, seg, footer), seg.end, footer, after);
    LieInTurn(after, MarkEnd(seg) - BLOCK, Zeros(BLOCK - MARK_LEN), mark);
  }

  /** The tail's rows lie behind the others. */
  predicate TailLies(seg: Segment, file: Bytes) { LiesAt(file, seg.rowsAt + |seg.rows|, seg.tail) }

  /** They do once written, and whatever becomes of the mark. */
  lemma TailWritten(rules: Rules, seg: Segment, file: Bytes, footer: Bytes, down: bool, first: Bytes, after: Bytes)
    requires first == Did(file, WriteRows(seg, down)) && (down ==> TailLies(seg, file))
    requires after == Did(first, StampMark(rules, seg, footer)) || May(first, StampMark(rules, seg, footer), after)
    ensures TailLies(seg, after)
  {
    if down { DidSpares(file, WriteRows(seg, down), seg.rowsAt + |seg.rows|, seg.tail, first); }
    DidSpares(first, StampMark(rules, seg, footer), seg.rowsAt + |seg.rows|, seg.tail, after);
  }

  lemma RowsInTurn(seg: Segment, file: Bytes)
    requires RowsIntact(seg, file) && TailLies(seg, file)
    ensures AllRows(seg, file)
  {
    var at, mid := seg.rowsAt, seg.rowsAt + |seg.rows|;
    assert file[at..RowsEnd(seg)] == file[at..mid] + file[mid..RowsEnd(seg)];
  }

  // ---- every step ----

  /** What holds at each point of an attempt, as far as the seal has come. */
  ghost predicate Inv(rules: Rules, seg: Segment, s: State) {
    && (!s.trimmed ==> BaseOk(seg, s.durable) && BaseOk(seg, s.file) && AllSpare(seg, s.ops))
    && (s.pc.Laid? ==>
          && !s.trimmed && FooterOk(rules, s.footer) && seg.end + |s.footer| < seg.rowsAt < BITS_64
          && LiesAt(s.file, seg.end, s.footer))
    && (s.pc.Stamped? ==> !s.trimmed && s.down && KeptOk(rules, seg, s.file, s.footer))
    && (s.pc.Kept? ==>
          && !s.trimmed && s.ops == [] && s.down && s.file == s.durable && KeptOk(rules, seg, s.durable, s.footer))
    && (s.down && !s.trimmed ==> TailLies(seg, s.file))
    && (s.pc.Trimmed? ==> s.trimmed && s.file == Did(s.durable, CutRows(seg, s.footer)))
    && (IsFar(s) ==> s.footer in s.footers)
    && (s.pc.Laid? || s.pc.Stamped? ==> s.footer in s.footers)
    && (s.trimmed && !s.pc.Done? ==>
          && s.ops == [CutRows(seg, s.footer)] && BaseOk(seg, s.durable) && KeptOk(rules, seg, s.durable, s.footer)
          && TailLies(seg, s.durable) && (s.pc.Idle? || s.pc.Trimmed?))
    && (s.pc.Done? ==>
          && s.trimmed && s.ops == [] && FooterOk(rules, s.footer) && |s.durable| == seg.end + |s.footer|
          && LiesAt(s.durable, seg.end, s.footer))
  }

  lemma SparesPush(seg: Segment, ops: seq<Op>, op: Op)
    requires AllSpare(seg, ops) && Spares(seg, op)
    ensures AllSpare(seg, ops + [op])
  {}

  lemma WriteFooterKeeps(rules: Rules, seg: Segment, s: State, step: Step)
    requires Inv(rules, seg, s) && Possible(rules, seg, s, step) && step.WriteFooter? && !s.trimmed
    ensures Inv(rules, seg, Apply(rules, seg, s, step))
  {
    var op, t := Write(seg.end, step.footer), Apply(rules, seg, s, step);
    SparesPush(seg, s.ops, op);
    BaseStays(seg, s.file, op, t.file);
    if s.down { DidSpares(s.file, op, seg.rowsAt + |seg.rows|, seg.tail, t.file); }
  }

  lemma WriteMarkKeeps(rules: Rules, seg: Segment, s: State, step: Step)
    requires Inv(rules, seg, s) && Possible(rules, seg, s, step) && step.WriteMark?
    ensures Inv(rules, seg, Apply(rules, seg, s, step))
  {
    var one, two, t := WriteRows(seg, s.down), StampMark(rules, seg, s.footer), Apply(rules, seg, s, step);
    SparesPush(seg, s.ops, one);
    if step.wrote {
      var first := Did(s.file, one);
      SparesPush(seg, s.ops + [one], two);
      BaseStays(seg, s.file, one, first);
      BaseStays(seg, first, two, t.file);
      TailWritten(rules, seg, s.file, s.footer, s.down, first, t.file);
      if step.ok { MarkWritten(rules, seg, s.file, s.footer, s.down, t.file); }
    } else {
      BaseStays(seg, s.file, one, t.file);
    }
  }

  lemma SyncKeeps(rules: Rules, seg: Segment, s: State, step: Step)
    requires Inv(rules, seg, s) && Possible(rules, seg, s, step) && (step.Sync? || step.Trim? || step.SyncEnd?)
    ensures Inv(rules, seg, Apply(rules, seg, s, step))
  {
    if step.SyncEnd? {
      var n := seg.end + |s.footer|;
      assert s.durable[..n][seg.end..n] == s.durable[seg.end..n];
    } else if step.Trim? {
      assert s.ops + [CutRows(seg, s.footer)] == [CutRows(seg, s.footer)];
    }
  }

  lemma {:induction false} RunKeeps(rules: Rules, seg: Segment, s: State, steps: seq<Step>, t: State)
    requires Inv(rules, seg, s) && IsRun(rules, seg, s, steps, t, true)
    ensures Inv(rules, seg, t)
    decreases |steps|
  {
    if steps != [] {
      var step := steps[0];
      if step.WriteFooter? {
        WriteFooterKeeps(rules, seg, s, step);
      } else if step.WriteMark? {
        WriteMarkKeeps(rules, seg, s, step);
      } else {
        SyncKeeps(rules, seg, s, step);
      }
      RunKeeps(rules, seg, Apply(rules, seg, s, step), steps[1..], t);
    }
  }

  // ---- every crash point ----

  lemma CutLeaves(durable: Bytes, len: nat, image: Bytes)
    requires Leaves(durable, [Cut(len)], image)
    ensures image == durable || (len <= |durable| && image == durable[..len])
  {
    var init, last := [Cut(len)][..0], [Cut(len)][0];
    assert init == [];
    var mid :| Leaves(durable, init, mid) && May(mid, last, image);
  }

  /** Whether the reader's last probe takes in the whole mark. */
  predicate MarkInSight(seg: Segment, image: Bytes) { ProbeFrom(image) + MARK_LEN <= MarkEnd(seg) }

  /** What a reopened segment reads as once footer and mark are synced. */
  ghost predicate ReadsFooter(rules: Rules, seg: Segment, image: Bytes, footer: Bytes) {
    || Read(rules, image) == Sealed(footer)
    || (AllRows(seg, image) && Read(rules, image) == if MarkInSight(seg, image) then Marked(footer) else Journaled)
  }

  lemma CrashReads(rules: Rules, seg: Segment, s: State, image: Bytes)
    requires Inv(rules, seg, s) && Leaves(s.durable, s.ops, image) && IsFar(s)
    ensures ReadsFooter(rules, seg, image, s.footer)
  {
    var n := seg.end + |s.footer|;
    if s.pc.Done? {
      EndIsRead(rules, image, s.footer);
    } else {
      if s.trimmed { CutLeaves(s.durable, n, image); }
      if image == s.durable {
        RowsInTurn(seg, image);
        MarkIsRead(rules, image, MarkEnd(seg), n, s.footer);
      } else {
        assert image[seg.end..n] == s.durable[seg.end..n];
        EndIsRead(rules, image, s.footer);
      }
    }
  }

  /** A segment the tail has left, its rows on the device. */
  function Left(file: Bytes): State { State(file, file, [], Idle, [], {}, false, false) }

  /**
   Main result: after any number of attempts that failed before the cut, a crash at any point leaves the rows whole
   until footer and mark are synced, and from then on the reader finds that very footer: at the end of the file, by
   the mark where its probe reaches it, and only where it does not, from the rows, which are whole to the last one.
   */
  lemma EveryCrashIsSafe(rules: Rules, seg: Segment, file: Bytes, steps: seq<Step>, s: State, image: Bytes)
    requires BaseOk(seg, file) && IsRun(rules, seg, Left(file), steps, s, true) && Leaves(s.durable, s.ops, image)
    ensures IsFar(s) ==> ReadsFooter(rules, seg, image, s.footer) && s.footer in s.footers
    ensures !IsFar(s) ==> RowsIntact(seg, image)
    ensures Safe(rules, seg, s, image)
  {
    RunKeeps(rules, seg, Left(file), steps, s);
    if IsFar(s) {
      CrashReads(rules, seg, s, image);
    } else {
      RowsOutlast(seg, s.durable, s.ops, image);
    }
  }

  // ---- an attempt after the cut ----

  ghost predicate InAttempt(rules: Rules, seg: Segment, s: State, first: Step, more: seq<Step>, t: State) {
    && Possible(rules, seg, s, first) && IsRun(rules, seg, Apply(rules, seg, s, first), more, t, true)
  }

  /** Wherever a crash ends an attempt with this footer, the rows or a footer survive. */
  ghost predicate AttemptSafe(rules: Rules, seg: Segment, s: State, footer: Bytes) {
    forall first: Step, more, t,
      image {:trigger InAttempt(rules, seg, s, first, more, t), Leaves(t.durable, t.ops, image)} ::
      first.WriteFooter? && first.footer == footer && InAttempt(rules, seg, s, first, more, t)
      && Leaves(t.durable, t.ops, image) ==>
        Safe(rules, seg, t, image)
  }

  /** A byte the write takes in, before the last eight of the footer in its way, makes of that one none written. */
  predicate Tears(s: State, footer: Bytes, i: nat, x: int) {
    i < |footer| && i + 8 < |s.footer| && s.footer[i := x] !in s.footers + {footer}
  }

  /** A byte none of these starts with. */
  lemma {:induction false} SomeByte(footers: set<Bytes>) returns (x: int)
    ensures forall g :: g in footers && g != [] ==> g[0] < x
    decreases |footers|
  {
    x := 0;
    if g :| g in footers {
      x := SomeByte(footers - {g});
      x := if g != [] && x <= g[0] then g[0] + 1 else x;
      assert forall h :: h in footers ==> h in footers - {g} || h == g;
    }
  }

  /**
   Main result: another attempt, whatever its footer, is safe at every crash point exactly if no earlier one went as
   far as the cut.
   */
  lemma SafeExactlyBeforeCut(rules: Rules, seg: Segment, file: Bytes, steps: seq<Step>, s: State, footer: Bytes)
    requires BaseOk(seg, file) && IsRun(rules, seg, Left(file), steps, s, true)
    requires Possible(rules, seg, s, Whole(footer))
    ensures AttemptSafe(rules, seg, s, footer) <==> !s.trimmed
  {
    RunKeeps(rules, seg, Left(file), steps, s);
    if s.trimmed {
      var x := SomeByte(s.footers + {footer});
      assert s.footer[0 := x][0] == x;
      var image := TornAfterCut(rules, seg, s, footer, 0, x);
      var t := Apply(rules, seg, s, Whole(footer));
      assert IsRun(rules, seg, t, [], t, true);
      assert InAttempt(rules, seg, s, Whole(footer), [], t) && Leaves(t.durable, t.ops, image);
    } else {
      forall first: Step, more, t, image
        {:trigger InAttempt(rules, seg, s, first, more, t), Leaves(t.durable, t.ops, image)} |
        first.WriteFooter? && InAttempt(rules, seg, s, first, more, t) && Leaves(t.durable, t.ops, image)
        ensures Safe(rules, seg, t, image)
      {
        WriteFooterKeeps(rules, seg, s, first);
        RunKeeps(rules, seg, Apply(rules, seg, s, first), more, t);
        if IsFar(t) { CrashReads(rules, seg, t, image); } else { RowsOutlast(seg, t.durable, t.ops, image); }
      }
    }
  }

  /** With the rows cut off, a footer of which one byte got down leaves no footer that was written. */
  lemma TornAfterCut(rules: Rules, seg: Segment, s: State, footer: Bytes, i: nat, x: int) returns (image: Bytes)
    requires Inv(rules, seg, s) && s.trimmed && s.pc.Idle? && Tears(s, footer, i, x)
    requires Possible(rules, seg, s, Whole(footer))
    ensures Leaves(s.durable, s.ops + [Write(seg.end, footer)], image)
    ensures !Safe(rules, seg, Apply(rules, seg, s, Whole(footer)), image)
  {
    image := TornFile(rules, seg, s.durable, s.footer, footer, i, x, s.footers + {footer});
  }

  lemma TornFile(rules: Rules, seg: Segment, durable: Bytes, f: Bytes, footer: Bytes, i: nat, x: int,
                 footers: set<Bytes>) returns (image: Bytes)
    requires FooterOk(rules, f) && LiesAt(durable, seg.end, f) && seg.end + |f| < seg.rowsAt
    requires i < |footer| && i + 8 < |f| && f[i := x] !in footers
    ensures Leaves(durable, [Cut(seg.end + |f|)] + [Write(seg.end, footer)], image)
    ensures !RowsIntact(seg, image) && !AllRows(seg, image)
    ensures Read(rules, image).Journaled? || Read(rules, image).footer !in footers
  {
    var n, torn := seg.end + |f|, f[i := x];
    var base := durable[..n];
    image := base[seg.end + i := x];
    CutThenTorn(durable, n, base, Write(seg.end, footer), image);
    TornSpells(durable, seg.end, f, i, x, image);
    TornReads(rules, image, seg.end, f, torn);
  }

  lemma TornSpells(file: Bytes, at: nat, f: Bytes, i: nat, x: int, image: Bytes)
    requires LiesAt(file, at, f) && i < |f| && image == file[..at + |f|][at + i := x]
    ensures image[at..] == f[i := x]
  {
    var base := file[..at + |f|];
    assert base[at..] == file[at..at + |f|];
  }

  /** A file that ends like a footer is read by no other footer than what its last bytes spell. */
  lemma TornReads(rules: Rules, image: Bytes, at: nat, f: Bytes, torn: Bytes)
    requires FooterOk(rules, f) && |torn| == |f| && |image| == at + |f| && image[at..] == torn
    requires torn[|f| - 8..] == f[|f| - 8..]
    ensures Read(rules, image).Journaled? || Read(rules, image).footer == torn
  {
    var n := |image|;
    assert LiesAt(torn, |f| - 8, Le(|f|, 4)) && LiesAt(torn, |f| - 4, REEL) by {
      assert torn[|f| - 8..|f| - 4] == f[|f| - 8..][..4] == f[|f| - 8..|f| - 4];
      assert torn[|f| - 4..|f|] == f[|f| - 8..][4..] == f[|f| - 4..|f|];
    }
    LiesWithin(image, at, torn, |f| - 4, REEL);
    assert image[n - 4..n] == REEL && image[n - 1] == image[n - 4..n][3];
    LastSetIs(image, ProbeFrom(image), n);
    TornEnds(rules, image, torn);
    NotAMark(rules, image);
  }

  lemma TornEnds(rules: Rules, image: Bytes, torn: Bytes)
    requires FIXED_TAIL_LEN <= |torn| <= |image| && |torn| < BITS_32 && LiesAt(image, |image| - |torn|, torn)
    requires LiesAt(torn, |torn| - 8, Le(|torn|, 4))
    ensures FooterEnding(rules, image, |image|).Some? ==> FooterEnding(rules, image, |image|).value == torn
  {
    LengthReads(image, |image| - |torn|, torn, |image| - 8);
    Le32ReadsBack(torn, |torn| - 8, |torn|);
    assert image[|image| - |torn|..|image|] == torn;
    ParseIsWhole(rules, torn);
  }

  /** A footer's end is no mark's end. */
  lemma EndIsNoMark(rules: Rules, image: Bytes, last: nat)
    requires MARK_LEN <= last <= |image| && LiesAt(image, last - 4, REEL)
    ensures ReadSealMark(rules, image[last - MARK_LEN..last]) == None
  {
    assert image[last - MARK_LEN..last][16] == image[last - 4] == image[last - 4..last][0] == REEL[0];
    assert SEAL[0] != REEL[0];
  }

  lemma NoneBefore(rules: Rules, image: Bytes, last: nat)
    requires MARK_LEN <= last <= |image| && LiesAt(image, last - 4, REEL)
    ensures MarkedBefore(rules, image, last) == None
  {
    EndIsNoMark(rules, image, last);
  }

  lemma NotAMark(rules: Rules, image: Bytes)
    requires |image| >= MARK_LEN && LiesAt(image, |image| - 4, REEL)
    requires LastSet(image, ProbeFrom(image), |image|) == |image|
    ensures ReadMarked(rules, image) == None
  {
    NoneBefore(rules, image, |image|);
  }

  lemma ParseIsWhole(rules: Rules, b: Bytes)
    requires |b| >= 8 && ReadLe(b, |b| - 8, 4) == |b|
    ensures ParseFooter(rules, b).Some? ==> ParseFooter(rules, b).value == b
  {
    assert b[0..] == b;
  }

  lemma CutThenTorn(durable: Bytes, n: nat, base: Bytes, torn: Op, image: Bytes)
    requires n <= |durable| && base == durable[..n] && May(base, torn, image)
    ensures Leaves(durable, [Cut(n)] + [torn], image)
  {
    var cut: seq<Op> := [Cut(n)];
    assert cut[..0] == [] && Leaves(durable, cut[..0], durable) && May(durable, cut[0], base);
    assert Leaves(durable, cut, base);
    assert ([Cut(n)] + [torn])[..1] == cut;
  }

  // ---- a run that leaves neither ----

  lemma {:induction false} RunPush(rules: Rules, seg: Segment, s: State, steps: seq<Step>, t: State, step: Step,
                                   z: State, strict: bool)
    requires IsRun(rules, seg, s, steps, t, strict) && Possible(rules, seg, t, step) && Apply(rules, seg, t, step) == z
    requires strict && step.WriteFooter? ==> !t.trimmed
    ensures IsRun(rules, seg, s, steps + [step], z, strict)
    decreases |steps|
  {
    if steps == [] {
      assert steps + [step] == [step] && [step][1..] == [] && IsRun(rules, seg, z, [], z, strict);
    } else {
      RunPush(rules, seg, Apply(rules, seg, s, steps[0]), steps[1..], t, step, z, strict);
      assert (steps + [step])[1..] == steps[1..] + [step];
    }
  }

  lemma {:induction false} Loosen(rules: Rules, seg: Segment, s: State, steps: seq<Step>, t: State)
    requires IsRun(rules, seg, s, steps, t, true)
    ensures IsRun(rules, seg, s, steps, t, false)
    decreases |steps|
  {
    if steps != [] { Loosen(rules, seg, Apply(rules, seg, s, steps[0]), steps[1..], t); }
  }

  /** An attempt that gets as far as the cut and fails at the sync behind it. */
  lemma FailsAfterCut(rules: Rules, seg: Segment, file: Bytes, f: Bytes) returns (steps: seq<Step>, s: State)
    requires FooterOk(rules, f) && seg.end + |f| < seg.rowsAt < BITS_64
    ensures IsRun(rules, seg, Left(file), steps, s, true)
    ensures s.pc.Idle? && s.trimmed && s.footer == f && s.footers == {f}
  {
    var a := Apply(rules, seg, Left(file), Whole(f));
    assert IsRun(rules, seg, Left(file), [], Left(file), true);
    RunPush(rules, seg, Left(file), [], Left(file), Whole(f), a, true);
    steps := [] + [Whole(f)];
    var b := Apply(rules, seg, a, WriteMark(true, true, []));
    RunPush(rules, seg, Left(file), steps, a, WriteMark(true, true, []), b, true);
    steps := steps + [WriteMark(true, true, [])];
    var c := Apply(rules, seg, b, Sync(true));
    RunPush(rules, seg, Left(file), steps, b, Sync(true), c, true);
    steps := steps + [Sync(true)];
    var d := Apply(rules, seg, c, Trim(true, []));
    RunPush(rules, seg, Left(file), steps, c, Trim(true, []), d, true);
    steps := steps + [Trim(true, [])];
    s := Apply(rules, seg, d, SyncEnd(false));
    RunPush(rules, seg, Left(file), steps, d, SyncEnd(false), s, true);
    steps := steps + [SyncEnd(false)];
  }

  /** A second attempt writes its footer over the first, with the rows gone: a crash can leave neither. */
  lemma AttemptAfterCut(rules: Rules, seg: Segment, file: Bytes, first: Bytes, second: Bytes, i: nat)
    returns (steps: seq<Step>, s: State, image: Bytes)
    requires BaseOk(seg, file) && FooterOk(rules, first) && FooterOk(rules, second)
    requires seg.end + |first| < seg.rowsAt < BITS_64 && seg.end + |second| < seg.rowsAt
    requires i < |second| && i + 8 < |first| && first[i := second[i]] !in {first, second}
    ensures IsRun(rules, seg, Left(file), steps, s, false) && Leaves(s.durable, s.ops, image)
    ensures s.footers == {first, second} && !Safe(rules, seg, s, image)
  {
    var t;
    steps, t := FailsAfterCut(rules, seg, file, first);
    RunKeeps(rules, seg, Left(file), steps, t);
    image := TornAfterCut(rules, seg, t, second, i, second[i]);
    Loosen(rules, seg, Left(file), steps, t);
    s := Apply(rules, seg, t, Whole(second));
    RunPush(rules, seg, Left(file), steps, t, Whole(second), s, false);
    steps := steps + [Whole(second)];
  }

  const FIRST: Bytes := seq(56, _ => 1) + Le(64, 4) + REEL
  const SECOND: Bytes := seq(56, _ => 2) + Le(64, 4) + REEL
  const RULES := Rules(b => b == FIRST || b == SECOND, _ => 0)
  const SEGMENT := Segment(0, 4096, [9], [])

  /** Two footers of sixty-four bytes each, and one row. */
  lemma TwoAttemptsLoseAll() returns (steps: seq<Step>, s: State, image: Bytes)
    ensures IsRun(RULES, SEGMENT, Left(Zeros(4096) + [9]), steps, s, false) && Leaves(s.durable, s.ops, image)
    ensures !Safe(RULES, SEGMENT, s, image)
  {
    var torn := FIRST[0 := SECOND[0]];
    assert torn[0] == 2 && torn[1] == 1 && FIRST[0] == 1 && SECOND[1] == 2;
    assert FIRST[56..60] == Le(64, 4) && FIRST[60..64] == REEL && SECOND[56..60] == Le(64, 4) && SECOND[60..64] == REEL;
    steps, s, image := AttemptAfterCut(RULES, SEGMENT, Zeros(4096) + [9], FIRST, SECOND, 0);
  }
}
