/**
 One segment of an append tail: writers claim, write and settle under a shared hold, a flusher reads what has
 settled under the exclusive one, turns at the device are handed around, and the tail rolls off to a seal. Each
 step is what one thread does at one atomic or under one lock.
 */
module Tail {

  const ALIGN := 4096
  const MAX_SEGMENT_OFFSET := 0xFFFF_FFFF

  /** What `synced_at` says once a seal has made the whole segment durable. */
  const ALL := 0xFFFF_FFFF_FFFF_FFFF

  /** No reservation has run past the segment. */
  const NO_CUT := 0xFFFF_FFFF_FFFF_FFFF

  /** A range of the segment. */
  datatype Range = Range(base: int, span: int)

  function End(r: Range): int { r.base + r.span }

  datatype Pc =
    | Waiting
    | AtDevice                                    // holds the turn
    | Flushing(covered: int, snap: set<Range>)    // has read what settled, and syncs
    | Dooming                                     // its flush failed, and it gives the segment up
    | Done(ok: bool)

  /** Someone who wants bytes on the device; what they are is kept for the proof only. */
  datatype Caller = Caller(target: int, owed: set<Range>, pc: Pc)

  /** A claim being written, once its writer has seen that it fits. */
  datatype Open = Open(range: Range, tested: bool)

  /** Where the seal of a segment the tail left stands. */
  datatype Sealing = NotLeft | Pending | Parked | Over

  /** The segment's bytes, as its writers share them out. */
  datatype Space = Space(
    bytes: int,                      // the segment's size
    whole: bool,                     // whether every write takes whole blocks
    reserved: int,
    settled: int,
    cut: int,
    claims: map<int, Open>,          // the claims of the writers that hold the tail
    landed: set<Range>,
    journal: int,                    // bytes pushed to the journal
    pads: int)                       // how many of them a journal write on its way may give back

  datatype State = State(
    space: Space,
    durable: set<Range>,             // what of the landed records the device holds
    onTail: bool,
    terminal: bool,
    syncedAt: int,
    running: bool,
    broken: bool,
    retired: bool,
    sealing: Sealing,
    callers: map<int, Caller>)

  /** What the journal has pushed so far is taken off the segment's size. */
  function Room(p: Space): int { if p.journal < p.bytes then p.bytes - p.journal else 0 }

  predicate Fits(p: Space, r: Range) { End(r) + ALIGN <= Room(p) && End(r) <= MAX_SEGMENT_OFFSET }

  /** Everything from here on goes when the segment is sealed. */
  function SealEnd(p: Space): int { if p.cut < p.reserved then p.cut else p.reserved }

  /** Nobody holds the tail shared. */
  predicate Exclusive(p: Space) { p.claims == map[] }

  datatype Step =
    | Claim(w: int, span: int)
    | Test(w: int)
    | Land(w: int, ok: bool, rows: int)
    | Pad(p: int) | PadBack | PadDone
    | AskSettled(c: int)
    | AskRecord(c: int, r: Range)
    | Turn(c: int)
    | DropTurn(c: int)
    | Snapshot(c: int)
    | EndFlush(c: int, ok: bool)
    | Doom(c: int)
    | Roll
    | Seal(ok: bool)
    | Close(ok: bool)

  predicate At(s: State, c: int, pc: Pc) { c in s.callers && s.callers[c].pc == pc }

  /** Whether a waiting caller can go on: it is covered, it is told of the break, or the turn is free. */
  predicate TurnComes(s: State, c: int)
    requires c in s.callers
  {
    s.syncedAt >= s.callers[c].target || s.broken || (!s.retired && !s.running)
  }

  predicate Possible(s: State, step: Step) {
    match step
    case Claim(w, span) =>
      && s.onTail && !s.terminal && w !in s.space.claims
      && 0 < span && s.space.reserved + span < ALL && (s.space.whole ==> span % ALIGN == 0)
    case Test(w) => w in s.space.claims && !s.space.claims[w].tested
    case Land(w, ok, rows) => w in s.space.claims && s.space.claims[w].tested && 0 <= rows
    case Pad(p) => s.space.whole && s.space.pads == 0 && 0 <= p < ALIGN
    case PadBack => true
    case PadDone => true
    case AskSettled(c) => s.onTail && c !in s.callers
    case AskRecord(c, r) => s.onTail && c !in s.callers && r in s.space.landed
    case Turn(c) => At(s, c, Waiting) && TurnComes(s, c)
    case DropTurn(c) => At(s, c, AtDevice)
    case Snapshot(c) => At(s, c, AtDevice) && Exclusive(s.space)
    case EndFlush(c, _) => c in s.callers && s.callers[c].pc.Flushing?
    case Doom(c) => At(s, c, Dooming)
    case Roll => s.onTail && Exclusive(s.space)
    case Seal(ok) => s.sealing.Pending? || s.sealing.Parked?
    case Close(ok) => s.onTail && !s.terminal && Exclusive(s.space)
  }

  function Goto(s: State, c: int, pc: Pc): State
    requires c in s.callers
  {
    s.(callers := s.callers[c := s.callers[c].(pc := pc)])
  }

  function Max(a: int, b: int): int { if a < b then b else a }
  function Min(a: int, b: int): int { if a < b then a else b }

  predicate IsWriters(step: Step) {
    step.Claim? || step.Test? || step.Land? || step.Pad? || step.PadBack? || step.PadDone?
  }

  predicate IsLeaving(step: Step) { step.Roll? || step.Seal? || step.Close? }

  /** What a writer or the journal does to the space. */
  function Write(s: State, step: Step): Space
    requires Possible(s, step) && IsWriters(step)
  {
    var p := s.space;
    match step
    case Claim(w, span) => p.(reserved := p.reserved + span,
      claims := p.claims[w := Open(Range(p.reserved, span), false)])
    case Test(w) =>
      var r := p.claims[w].range;
      if Fits(p, r) then p.(claims := p.claims[w := Open(r, true)])
      else p.(claims := p.claims - {w}, cut := Min(p.cut, r.base), settled := p.settled + r.span)
    case Land(w, ok, rows) =>
      var r := p.claims[w].range;
      var out := p.(claims := p.claims - {w}, settled := p.settled + r.span);
      if ok then out.(landed := p.landed + {r}, journal := p.journal + rows) else out
    case Pad(n) => p.(journal := p.journal + n, pads := n)
    case PadBack => p.(journal := p.journal - p.pads, pads := 0)
    case PadDone => p.(pads := 0)
  }

  /** What someone who wants bytes on the device does. */
  function Call(s: State, step: Step): State
    requires Possible(s, step) && !IsWriters(step) && !IsLeaving(step)
  {
    match step
    case AskSettled(c) =>
      s.(callers := s.callers[c := Caller(s.space.settled, s.space.landed, if s.space.settled == s.syncedAt
        then Done(true) else Waiting)])
    case AskRecord(c, r) => s.(callers := s.callers[c := Caller(End(r), {r}, Waiting)])
    case Turn(c) =>
      if s.syncedAt >= s.callers[c].target then Goto(s, c, Done(true))
      else if s.broken then Goto(s, c, Done(false))
      else Goto(s.(running := true), c, AtDevice)
    case DropTurn(c) => Goto(s.(running := false), c, Done(false))
    case Snapshot(c) =>
      if !s.onTail || s.terminal then Goto(s.(running := false, retired := true), c, Waiting)
      else Goto(s, c, Flushing(s.space.settled, s.space.landed))
    case EndFlush(c, ok) =>
      if ok then
        Goto(s.(durable := s.durable + s.callers[c].pc.snap, syncedAt := Max(s.syncedAt, s.callers[c].pc.covered),
          running := false),
             c, Waiting)
      else Goto(s.(broken := true, running := false), c, Dooming)
    case Doom(c) => Goto(s.(terminal := s.terminal || s.onTail), c, Done(false))
  }

  /** What the tail does as it leaves the segment, and the sealer after it. */
  function Leave(s: State, step: Step): State
    requires Possible(s, step) && IsLeaving(step)
  {
    match step
    case Roll => s.(onTail := false, sealing := Pending)
    case Seal(ok) =>
      if s.terminal then s.(sealing := Over)
      else if ok then s.(durable := s.space.landed, syncedAt := ALL, sealing := Over)
      else s.(broken := s.broken || s.syncedAt != ALL, sealing := Parked)
    case Close(ok) =>
      if ok then s.(durable := s.space.landed, syncedAt := ALL, terminal := true)
      else s.(broken := s.broken || s.syncedAt != ALL, terminal := true)
  }

  function Apply(s: State, step: Step): State
    requires Possible(s, step)
  {
    if IsWriters(step) then s.(space := Write(s, step)) else if IsLeaving(step) then Leave(s, step) else Call(s, step)
  }

  /** A segment right after its header was written. */
  function Fresh(bytes: int, whole: bool, header: int): State {
    State(Space(bytes, whole, header, header, NO_CUT, map[], {}, 0, 0), {}, true, false, 0, false, false, false,
      NotLeft, map[])
  }

  /** Whether the step leaves a claim waiting for its writer to look at the room. */
  ghost predicate Prompt(s: State, step: Step) {
    (exists w :: w in s.space.claims && !s.space.claims[w].tested) ==> step.Test?
  }

  /** A run of steps; in a prompt one every writer looks at the room right after its claim. */
  ghost predicate IsRun(s: State, steps: seq<Step>, t: State, prompt: bool)
    decreases |steps|
  {
    if steps == [] then s == t
    else Possible(s, steps[0]) && (prompt ==> Prompt(s, steps[0])) && IsRun(Apply(s, steps[0]), steps[1..], t, prompt)
  }
}
