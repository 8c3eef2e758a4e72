/**
 The publish barrier: batches that move the index take turns, in order of arrival, with reads that need several keys
 at once.
 Threads take it, park, are unparked, form groups of batches under one hold, and try whole-set reads
 outside it, in small steps that interleave freely. Each step is what one thread does under one lock, or
 one atomic load or add.
 */
module Barrier {
  import opened Common

  datatype Want = Shared | Exclusive

  /** Where a thread stands. */
  datatype Pc =
    | Idle
    | Sampled(started: int)                                   // has read how many batches started
    | Filling(quiet: int, seen: int, clean: bool)             // fills outside the queue
    | Arriving(want: Want, group: Option<int>)                // about to join the queue
    | Queued(place: int, want: Want, group: Option<int>)      // awake, about to look whether it may enter
    | Parking(place: int, want: Want, group: Option<int>)     // looked in vain, parks until it has a token
    | Reading(seen: int, clean: bool)                         // inside, fills
    | Entered(group: Option<int>)                             // inside alone, not yet counted as started
    | Opening(id: int)                                        // counted, about to open its group
    | Notifying(id: int)                                      // opened it, about to wake the joiners
    | Leading(group: Option<int>, moved: bool)                // moves the index
    | Draining(id: int)                                       // takes no more joiners, looks for those left
    | DrainParked(id: int)                                    // waits for the last of them
    | Finishing                                               // about to be counted as finished
    | Leaving                                                 // counted, about to give the barrier up
    | Joining(id: int)                                        // joined a group, looks whether it is open
    | JoinParked(id: int)                                     // waits for that
    | Following(id: int, moved: bool)                         // moves the index under its leader's hold

  /** A thread and whether an unpark has left it a token. */
  datatype Thread = Thread(pc: Pc, token: bool)

  datatype Waiter = Waiter(place: int, want: Want, thread: int)

  /** Batches under one hold; who leads and who joined is kept for the proof only. */
  datatype Group = Group(open: bool, count: int, leader: int, joiners: set<int>)

  datatype State = State(
    threads: map<int, Thread>,
    readers: int,
    publishing: bool,
    waiting: seq<Waiter>,
    nextPlace: int,
    started: int,
    finished: int,
    gathering: Option<int>,
    groups: map<int, Group>,
    version: int,                // moves of the index so far
    // kept for the proof only: who is inside, and the places that entered, in order
    inside: set<int>,
    holder: int,
    entered: seq<int>,
    nextGroup: int)

  // ---- the queue ----

  predicate MayEnter(s: State, place: int) {
    && s.waiting != [] && s.waiting[0].place == place && !s.publishing
    && (s.waiting[0].want.Exclusive? ==> s.readers == 0)
  }

  /** How many waiters at the front of the queue share. */
  function SharedRun(waiting: seq<Waiter>): (n: nat)
    ensures n <= |waiting|
  {
    if waiting == [] || waiting[0].want.Exclusive? then 0 else 1 + SharedRun(waiting[1..])
  }

  function Unpark(threads: map<int, Thread>, t: int): map<int, Thread> {
    if t in threads then threads[t := threads[t].(token := true)] else threads
  }

  function UnparkAll(threads: map<int, Thread>, waiters: seq<Waiter>): (r: map<int, Thread>)
    ensures r.Keys == threads.Keys
    ensures forall t :: t in threads ==> r[t].pc == threads[t].pc && (threads[t].token ==> r[t].token)
    ensures forall i :: 0 <= i < |waiters| && waiters[i].thread in threads ==> r[waiters[i].thread].token
    decreases |waiters|
  {
    if waiters == [] then threads else UnparkAll(Unpark(threads, waiters[0].thread), waiters[1..])
  }

  /** Unpark whoever may go in next: one batch, or all the readers that stand in front of the first batch. */
  function WakeFront(s: State): State {
    if s.waiting == [] || !MayEnter(s, s.waiting[0].place) then s
    else if s.waiting[0].want.Exclusive? then s.(threads := Unpark(s.threads, s.waiting[0].thread))
    else s.(threads := UnparkAll(s.threads, s.waiting[..SharedRun(s.waiting)]))
  }

  // ---- steps ----

  function Goto(s: State, t: int, pc: Pc): State
    requires t in s.threads
  {
    s.(threads := s.threads[t := s.threads[t].(pc := pc)])
  }

  predicate Midway(pc: Pc) { (pc.Leading? || pc.Following?) && pc.moved }

  /** No batch has made some of its moves and may make more. */
  ghost predicate NoneMidway(s: State) { forall t :: t in s.threads ==> !Midway(s.threads[t].pc) }

  /** A waiter that may enter leaves the queue and goes inside. */
  ghost function Enter(s: State, t: int, want: Want, group: Option<int>): State
    requires t in s.threads && s.waiting != []
  {
    var popped := s.(waiting := s.waiting[1..], entered := s.entered + [s.waiting[0].place]);
    match want
    case Shared =>
      WakeFront(Goto(popped.(readers := s.readers + 1, inside := s.inside + {t}), t, Reading(s.version, NoneMidway(s))))
    case Exclusive =>
      Goto(popped.(publishing := true, holder := t), t, Entered(group))
  }

  /** Whoever waits on a group's condition looks again. */
  function Notify(threads: map<int, Thread>, asleep: Pc, awake: Pc): (r: map<int, Thread>)
    ensures r.Keys == threads.Keys
    ensures forall t :: t in threads ==>
      r[t].token == threads[t].token && r[t].pc == if threads[t].pc == asleep then awake else threads[t].pc
  {
    map t | t in threads :: if threads[t].pc == asleep then threads[t].(pc := awake) else threads[t]
  }

  datatype Step =
    | ReadAll | Look | Accept                         // a whole-set read, outside the queue at first
    | Read | Publish | PublishGrouped                 // a read of several keys, a lone batch, a batch that groups
    | Arrive | Wake | Spurious | Check                // the queue
    | EndRead | Start | OpenGroup | NotifyGroup | Move | EndMoves | Drain | Finish | Leave
    | JoinLook | EndFollow

  ghost predicate Enabled(s: State, t: int, step: Step) {
    t in s.threads &&
    var pc := s.threads[t].pc;
    match step
    case ReadAll => pc.Idle?
    case Look => pc.Sampled?
    case Accept => pc.Filling?
    case Read => pc.Idle?
    case Publish => pc.Idle?
    case PublishGrouped => pc.Idle? && (s.gathering.Some? ==> s.gathering.value in s.groups)
    case Arrive => pc.Arriving?
    case Wake => pc.Parking? && s.threads[t].token
    case Spurious => pc.Parking? || pc.DrainParked? || pc.JoinParked?
    case Check => pc.Queued?
    case EndRead => pc.Reading?
    case Start => pc.Entered?
    case OpenGroup => pc.Opening? && pc.id in s.groups
    case NotifyGroup => pc.Notifying?
    case Move => pc.Leading? || pc.Following?
    case EndMoves => pc.Leading?
    case Drain => pc.Draining? && pc.id in s.groups
    case Finish => pc.Finishing?
    case Leave => pc.Leaving?
    case JoinLook => pc.Joining? && pc.id in s.groups
    case EndFollow => pc.Following? && pc.id in s.groups
  }

  ghost function Apply(s: State, t: int, step: Step): State
    requires Enabled(s, t, step)
  {
    var pc := s.threads[t].pc;
    match step
    case ReadAll => Goto(s, t, Sampled(s.started))
    case Look =>
      Goto(s, t, if s.finished == pc.started then Filling(pc.started, s.version, NoneMidway(s))
        else Arriving(Shared, None))
    case Accept => Goto(s, t, if s.started == pc.quiet then Idle else Arriving(Shared, None))
    case Read => Goto(s, t, Arriving(Shared, None))
    case Publish => Goto(s, t, Arriving(Exclusive, None))
    case PublishGrouped =>
      if s.gathering.Some? then
        var id := s.gathering.value;
        var g := s.groups[id];
        Goto(s.(groups := s.groups[id := g.(count := g.count + 1, joiners := g.joiners + {t})]), t, Joining(id))
      else
        var id := s.nextGroup;
        Goto(s.(groups := s.groups[id := Group(false, 0, t, {})], gathering := Some(id), nextGroup := id + 1),
             t, Arriving(Exclusive, Some(id)))
    case Arrive =>
      var place := s.nextPlace;
      var q := s.(waiting := s.waiting + [Waiter(place, pc.want, t)], nextPlace := place + 1);
      if MayEnter(q, place) then Enter(q, t, pc.want, pc.group) else Goto(q, t, Parking(place, pc.want, pc.group))
    case Wake =>
      s.(threads := s.threads[t := Thread(Queued(pc.place, pc.want, pc.group), false)])
    case Spurious =>
      Goto(s, t, match pc
                 case Parking(place, want, group) => Queued(place, want, group)
                 case DrainParked(id) => Draining(id)
                 case JoinParked(id) => Joining(id))
    case Check =>
      if MayEnter(s, pc.place) then Enter(s, t, pc.want, pc.group) else Goto(s, t, Parking(pc.place, pc.want, pc.group))
    case EndRead => WakeFront(Goto(s.(readers := s.readers - 1, inside := s.inside - {t}), t, Idle))
    case Start =>
      Goto(s.(started := s.started + 1), t, if pc.group.Some? then Opening(pc.group.value) else Leading(None, false))
    case OpenGroup =>
      Goto(s.(groups := s.groups[pc.id := s.groups[pc.id].(open := true)]), t, Notifying(pc.id))
    case NotifyGroup =>
      Goto(s.(threads := Notify(s.threads, JoinParked(pc.id), Joining(pc.id))), t, Leading(Some(pc.id), false))
    case Move => Goto(s.(version := s.version + 1), t, pc.(moved := true))
    case EndMoves =>
      if pc.group.Some? then Goto(s.(gathering := None), t, Draining(pc.group.value)) else Goto(s, t, Finishing)
    case Drain => Goto(s, t, if s.groups[pc.id].count > 0 then DrainParked(pc.id) else Finishing)
    case Finish => Goto(s.(finished := s.finished + 1), t, Leaving)
    case Leave => WakeFront(Goto(s.(publishing := false), t, Idle))
    case JoinLook => Goto(s, t, if s.groups[pc.id].open then Following(pc.id, false) else JoinParked(pc.id))
    case EndFollow =>
      var g := s.groups[pc.id];
      var left := s.(groups := s.groups[pc.id := g.(count := g.count - 1, joiners := g.joiners - {t})]);
      Goto(if g.count == 1 then left.(threads := Notify(s.threads, DrainParked(pc.id), Draining(pc.id))) else left, t,
        Idle)
  }

  // ---- runs ----

  /** Every thread idle and the queue empty. */
  function Init(threads: set<int>): State {
    State(map t | t in threads :: Thread(Idle, false), 0, false, [], 0, 0, 0, None, map[], 0, {}, 0, [], 0)
  }

  ghost predicate IsRun(s: State, run: seq<(int, Step)>, w: State)
    decreases |run|
  {
    if run == [] then s == w
    else Enabled(s, run[0].0, run[0].1) && IsRun(Apply(s, run[0].0, run[0].1), run[1..], w)
  }
}
