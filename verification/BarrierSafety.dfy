/**
 What every step of the barrier keeps: the queue is served in the order it was joined, a batch excludes
 all others, every joiner moves under its leader's hold, and no wakeup is lost.
 */
module BarrierSafety {
  import opened Common
  import opened Barrier

  // ---- what a thread is doing ----

  predicate InQueue(pc: Pc) { pc.Queued? || pc.Parking? }

  /** Inside alone. */
  predicate Holds(pc: Pc) {
    pc.Entered? || pc.Opening? || pc.Notifying? || pc.Leading? || pc.Draining? || pc.DrainParked? || pc.Finishing?
      || pc.Leaving?
  }

  /** Inside alone, counted as started and not as finished. */
  predicate Counted(pc: Pc) { Holds(pc) && !pc.Entered? && !pc.Leaving? }

  /** What a thread is to a group: its leader while it takes joiners or drains them, or one that joined. */
  datatype Role = Apart | Gathering(id: int) | Drains(id: int) | Joined(id: int)

  function AtHeadOf(group: Option<int>): Role { if group.Some? then Gathering(group.value) else Apart }

  function RoleOf(pc: Pc): Role {
    match pc
    case Arriving(_, group) => AtHeadOf(group)
    case Queued(_, _, group) => AtHeadOf(group)
    case Parking(_, _, group) => AtHeadOf(group)
    case Entered(group) => AtHeadOf(group)
    case Opening(id) => Gathering(id)
    case Notifying(id) => Gathering(id)
    case Leading(group, _) => AtHeadOf(group)
    case Draining(id) => Drains(id)
    case DrainParked(id) => Drains(id)
    case Joining(id) => Joined(id)
    case JoinParked(id) => Joined(id)
    case Following(id, _) => Joined(id)
    case _ => Apart
  }

  predicate Gathers(pc: Pc, id: int) { RoleOf(pc) == Gathering(id) }

  predicate Leads(pc: Pc, id: int) { Gathers(pc, id) || RoleOf(pc) == Drains(id) }

  /** Leads a group it has opened. */
  predicate HasOpened(pc: Pc) { pc.Notifying? || pc.Leading? || pc.Draining? || pc.DrainParked? }

  predicate Joins(pc: Pc, id: int) { RoleOf(pc) == Joined(id) }

  /** The thread's place, group and want as it waits or holds. */
  predicate WellFormed(pc: Pc) {
    && ((pc.Arriving? || InQueue(pc)) && pc.group.Some? ==> pc.want.Exclusive?)
  }

  // ---- the invariant ----

  predicate WaitsAs(pc: Pc, w: Waiter) { InQueue(pc) && pc.place == w.place && pc.want == w.want }

  /** The queue holds the places not yet served, in order, each for the thread that waits for it. */
  ghost predicate QueueOk(s: State) {
    && s.nextPlace == |s.entered| + |s.waiting|
    && (forall i :: 0 <= i < |s.entered| ==> s.entered[i] == i)
    && (forall i {:trigger s.waiting[i]} :: 0 <= i < |s.waiting| ==>
          && s.waiting[i].place == |s.entered| + i && s.waiting[i].thread in s.threads
          && WaitsAs(s.threads[s.waiting[i].thread].pc, s.waiting[i]))
    && (forall t {:trigger Stands(s, t)} :: t in s.threads ==> Stands(s, t))
  }

  /** A thread that waits has the queue's entry at its place. */
  ghost predicate Stands(s: State, t: int)
    requires t in s.threads
  {
    InQueue(s.threads[t].pc) ==>
      var i := s.threads[t].pc.place - |s.entered|;
      0 <= i < |s.waiting| && s.waiting[i].thread == t
  }

  /** Who is inside: any number of readers or one batch; started and finished differ by the one that moves. */
  ghost predicate InsideOk(s: State) {
    && (forall t {:trigger s.threads[t]} {:trigger t in s.inside} ::
      t in s.inside <==> t in s.threads && s.threads[t].pc.Reading?)
    && s.readers == |s.inside|
    && (s.publishing ==> s.inside == {} && s.holder in s.threads && Holds(s.threads[s.holder].pc))
    && (forall t {:trigger s.threads[t]} :: t in s.threads && Holds(s.threads[t].pc) ==> s.publishing && t == s.holder)
    && s.started == s.finished + (if s.publishing && Counted(s.threads[s.holder].pc) then 1 else 0)
  }

  /** A front waiter that may enter is awake or has a token. */
  ghost predicate WakeOk(s: State) {
    s.waiting != [] && MayEnter(s, s.waiting[0].place) && s.waiting[0].thread in s.threads ==>
      s.threads[s.waiting[0].thread].pc.Queued? || s.threads[s.waiting[0].thread].token
  }

  type Threads = map<int, Thread>
  type Groups = map<int, Group>

  ghost predicate LeaderOk(th: Threads, gs: Groups, at: Option<int>, t: int, id: int)
    requires t in th
  {
    && id in gs && gs[id].leader == t && gs[id].open == HasOpened(th[t].pc)
    && (at == Some(id) <==> Gathers(th[t].pc, id))
    && (th[t].pc.DrainParked? ==> gs[id].count > 0)
  }

  ghost predicate JoinerOk(th: Threads, gs: Groups, t: int, id: int)
    requires t in th
  {
    && id in gs && t in gs[id].joiners
    && gs[id].leader in th && Leads(th[gs[id].leader].pc, id)
    && (th[t].pc.JoinParked? && gs[id].open ==> th[gs[id].leader].pc.Notifying?)
    && (th[t].pc.Following? ==> gs[id].open)
  }

  ghost predicate GroupOk(th: Threads, gs: Groups, next: int, id: int)
    requires id in gs
  {
    && id < next && gs[id].count == |gs[id].joiners|
    && forall t :: t in gs[id].joiners ==> t in th && Joins(th[t].pc, id)
  }

  /** Every thread that leads or joins a group agrees with what the group says. */
  ghost predicate Fit(th: Threads, gs: Groups, at: Option<int>, next: int) {
    && (forall t, id {:trigger Leads(th[t].pc, id)} :: t in th && Leads(th[t].pc, id) ==> LeaderOk(th, gs, at, t, id))
    && (forall t, id {:trigger Joins(th[t].pc, id)} :: t in th && Joins(th[t].pc, id) ==> JoinerOk(th, gs, t, id))
    && (forall id {:trigger GroupOk(th, gs, next, id)} :: id in gs ==> GroupOk(th, gs, next, id))
    && (at.Some? ==> at.value in gs && gs[at.value].leader in th && Gathers(th[gs[at.value].leader].pc, at.value))
    && (forall t {:trigger th[t]} :: t in th ==> WellFormed(th[t].pc))
  }

  ghost predicate GroupsOk(s: State) { Fit(s.threads, s.groups, s.gathering, s.nextGroup) }

  /** A fill that would be taken now began between batches, and the index has not moved since. */
  ghost predicate ReadOk(s: State, t: int)
    requires t in s.threads
  {
    var pc := s.threads[t].pc;
    && (pc.Sampled? ==> pc.started <= s.started)
    && (pc.Filling? ==>
      pc.quiet <= s.started && (s.started == pc.quiet ==> s.started == s.finished && pc.seen == s.version && pc.clean))
    && (pc.Reading? ==> pc.seen == s.version && pc.clean)
  }

  ghost predicate ReadsOk(s: State) { forall t {:trigger ReadOk(s, t)} :: t in s.threads ==> ReadOk(s, t) }

  ghost predicate Inv(s: State) {
    var ok := QueueOk(s) && InsideOk(s) && GroupsOk(s) && ReadsOk(s) && WakeOk(s);
    ok
  }

  // ---- waking ----

  /** The same threads at the same points; tokens may differ. */
  ghost predicate SamePcs(a: map<int, Thread>, b: map<int, Thread>) {
    a.Keys == b.Keys && forall t {:trigger b[t]} {:trigger a[t]} :: t in a ==> a[t].pc == b[t].pc
  }

  lemma WakeFrontOnlyWakes(s: State)
    ensures SamePcs(s.threads, WakeFront(s).threads) && WakeFront(s) == s.(threads := WakeFront(s).threads)
    ensures WakeOk(WakeFront(s))
  {
    var w := WakeFront(s);
    assert w.waiting != [] && MayEnter(w, w.waiting[0].place) ==> MayEnter(s, s.waiting[0].place);
    assert s.waiting != [] && s.waiting[0].want.Shared? ==> s.waiting[..SharedRun(s.waiting)][0] == s.waiting[0];
  }

  /** Waking leaves everything but tokens as it was, and leaves no wakeup lost. */
  lemma WakeFrontKeeps(s: State)
    requires QueueOk(s) && InsideOk(s) && GroupsOk(s) && ReadsOk(s)
    ensures Inv(WakeFront(s))
  {
    var w := WakeFront(s);
    WakeFrontOnlyWakes(s);
    QueueBySamePcs(s, w);
    InsideBySamePcs(s, w);
    GroupsBySamePcs(s, w);
  }

  lemma QueueBySamePcs(s: State, w: State)
    requires QueueOk(s) && ReadsOk(s) && SamePcs(s.threads, w.threads) && w == s.(threads := w.threads)
    ensures QueueOk(w) && ReadsOk(w)
  {
    forall t | t in w.threads ensures Stands(w, t) && ReadOk(w, t) { assert Stands(s, t) && ReadOk(s, t); }
  }

  lemma InsideBySamePcs(s: State, w: State)
    requires InsideOk(s) && SamePcs(s.threads, w.threads) && w == s.(threads := w.threads)
    ensures InsideOk(w)
  {}

  lemma GroupsBySamePcs(s: State, w: State)
    requires GroupsOk(s) && SamePcs(s.threads, w.threads) && w == s.(threads := w.threads)
    ensures GroupsOk(w)
  {
    SameRolesFit(s.threads, w.threads, s.groups, s.gathering, s.nextGroup);
  }

  /** Threads that all keep their roles still fit. */
  lemma SameRolesFit(th: Threads, tw: Threads, gs: Groups, at: Option<int>, next: int)
    requires Fit(th, gs, at, next) && th.Keys == tw.Keys
    requires forall t {:trigger tw[t]} {:trigger th[t]} :: t in th ==> SameRole(th[t].pc, tw[t].pc)
    ensures Fit(tw, gs, at, next)
  {
    forall t, id | t in tw && Leads(tw[t].pc, id) ensures LeaderOk(tw, gs, at, t, id) { assert Leads(th[t].pc, id); }
    forall t, id | t in tw && Joins(tw[t].pc, id) ensures JoinerOk(tw, gs, t, id) {
      assert Joins(th[t].pc, id);
      assert Leads(th[gs[id].leader].pc, id);
    }
    forall id | id in gs ensures GroupOk(tw, gs, next, id) { assert GroupOk(th, gs, next, id); }
  }

  // ---- one thread moving on ----

  /** One thread moves from one point to another and nothing else but tokens and the queue changes. */
  predicate Moves(s: State, w: State, t: int) {
    t in s.threads && t in w.threads && w.threads == s.threads[t := w.threads[t]]
  }

  /** Points that mean the same to a group. */
  predicate SameRole(p: Pc, q: Pc) {
    && RoleOf(p) == RoleOf(q)
    && (RoleOf(q).Gathering? || RoleOf(q).Drains? ==>
          HasOpened(p) == HasOpened(q) && (q.DrainParked? ==> p.DrainParked?) && (p.Notifying? ==> q.Notifying?))
    && (q.JoinParked? ==> p.JoinParked?) && (q.Following? ==> p.Following?)
    && WellFormed(q)
  }

  lemma GroupsByMove(s: State, w: State, t: int)
    requires GroupsOk(s) && Moves(s, w, t) && SameRole(s.threads[t].pc, w.threads[t].pc)
    requires w.groups == s.groups && w.gathering == s.gathering && w.nextGroup == s.nextGroup
    ensures GroupsOk(w)
  {
    forall u | u in s.threads && u != t
      ensures SameRole(s.threads[u].pc, w.threads[u].pc)
    {
      assert w.threads[u] == s.threads[u];
    }
    SameRolesFit(s.threads, w.threads, s.groups, s.gathering, s.nextGroup);
  }

  lemma QueueByMove(s: State, w: State, t: int)
    requires QueueOk(s) && Moves(s, w, t)
    requires w.waiting == s.waiting && w.entered == s.entered && w.nextPlace == s.nextPlace
    requires InQueue(s.threads[t].pc) == InQueue(w.threads[t].pc)
    requires InQueue(w.threads[t].pc) ==>
      w.threads[t].pc.place == s.threads[t].pc.place && w.threads[t].pc.want == s.threads[t].pc.want
    ensures QueueOk(w)
  {
    forall u | u in w.threads ensures Stands(w, u) { assert Stands(s, u); }
  }

  lemma InsideByMove(s: State, w: State, t: int)
    requires InsideOk(s) && Moves(s, w, t)
    requires w.inside == s.inside && w.readers == s.readers && w.publishing == s.publishing && w.holder == s.holder
    requires w.started == s.started && w.finished == s.finished
    requires s.threads[t].pc.Reading? == w.threads[t].pc.Reading? && Holds(s.threads[t].pc) == Holds(w.threads[t].pc)
    requires Counted(s.threads[t].pc) == Counted(w.threads[t].pc)
    ensures InsideOk(w)
  {}

  /** A thread that moves on without joining, leaving or counting anything keeps the invariant. */
  lemma MoveKeeps(s: State, w: State, t: int)
    requires Inv(s) && Moves(s, w, t) && w == s.(threads := w.threads)
    requires SameRole(s.threads[t].pc, w.threads[t].pc)
    requires InQueue(s.threads[t].pc) == InQueue(w.threads[t].pc)
    requires InQueue(w.threads[t].pc) ==>
      w.threads[t].pc.place == s.threads[t].pc.place && w.threads[t].pc.want == s.threads[t].pc.want
    requires s.threads[t].pc.Reading? == w.threads[t].pc.Reading? && Holds(s.threads[t].pc) == Holds(w.threads[t].pc)
    requires Counted(s.threads[t].pc) == Counted(w.threads[t].pc)
    requires ReadOk(w, t)
    requires (InQueue(w.threads[t].pc) && MayEnter(s, w.threads[t].pc.place) ==> w.threads[t].pc.Queued?)
    ensures Inv(w)
  {
    QueueByMove(s, w, t);
    InsideByMove(s, w, t);
    GroupsByMove(s, w, t);
    forall u | u in w.threads ensures ReadOk(w, u) { assert ReadOk(s, u); }
  }

  // ---- each step ----

  /** A joiner moves only while its leader holds the barrier, counted as started and not as finished. */
  lemma FollowersLed(s: State)
    requires InsideOk(s) && GroupsOk(s)
    ensures forall t {:trigger s.threads[t]} :: t in s.threads && s.threads[t].pc.Following? ==>
      s.publishing && Counted(s.threads[s.holder].pc) && Leads(s.threads[s.holder].pc, s.threads[t].pc.id)
  {
    forall t | t in s.threads && s.threads[t].pc.Following?
      ensures s.publishing && Counted(s.threads[s.holder].pc) && Leads(s.threads[s.holder].pc, s.threads[t].pc.id)
    {
      var id := s.threads[t].pc.id;
      assert Joins(s.threads[t].pc, id);
      assert JoinerOk(s.threads, s.groups, t, id);
      assert Leads(s.threads[s.groups[id].leader].pc, id);
    }
  }

  /** While no batch is counted as moving, none is. */
  lemma NoMovers(s: State)
    requires InsideOk(s) && GroupsOk(s) && !(s.publishing && Counted(s.threads[s.holder].pc))
    ensures forall t {:trigger s.threads[t]} ::
      t in s.threads ==> !s.threads[t].pc.Leading? && !s.threads[t].pc.Following?
    ensures NoneMidway(s)
  {
    FollowersLed(s);
  }

  lemma AskKeeps(s: State, t: int, step: Step)
    requires Inv(s) && Enabled(s, t, step) && (step.ReadAll? || step.Read? || step.Publish?)
    ensures Inv(Apply(s, t, step))
  {
    MoveKeeps(s, Apply(s, t, step), t);
  }

  lemma LookKeeps(s: State, t: int)
    requires Inv(s) && Enabled(s, t, Look)
    ensures Inv(Apply(s, t, Look))
  {
    assert ReadOk(s, t);
    if s.started == s.finished { NoMovers(s); }
    MoveKeeps(s, Apply(s, t, Look), t);
  }

  lemma AcceptKeeps(s: State, t: int)
    requires Inv(s) && Enabled(s, t, Accept)
    ensures Inv(Apply(s, t, Accept))
  {
    MoveKeeps(s, Apply(s, t, Accept), t);
  }

  lemma WakeKeeps(s: State, t: int, step: Step)
    requires Inv(s) && Enabled(s, t, step) && (step.Wake? || step.Spurious?)
    ensures Inv(Apply(s, t, step))
  {
    var p := s.threads[t].pc;
    assert p.Parking? ==> WellFormed(p);
    assert p.JoinParked? ==> Joins(p, p.id);
    MoveKeeps(s, Apply(s, t, step), t);
  }

  // ---- the queue ----

  /** Joining at the back. */
  function Join(s: State, t: int, pc: Pc): State
    requires t in s.threads && pc.Arriving?
  {
    Goto(s.(waiting := s.waiting + [Waiter(s.nextPlace, pc.want, t)], nextPlace := s.nextPlace + 1),
         t, Parking(s.nextPlace, pc.want, pc.group))
  }

  lemma JoinKeepsQueue(s: State, t: int)
    requires QueueOk(s) && t in s.threads && s.threads[t].pc.Arriving?
    ensures QueueOk(Join(s, t, s.threads[t].pc))
  {
    var w := Join(s, t, s.threads[t].pc);
    forall u | u in w.threads ensures Stands(w, u) { assert Stands(s, u); }
  }

  /** Leaving from the front. */
  lemma PopKeepsQueue(s: State, w: State, t: int)
    requires QueueOk(s) && Moves(s, w, t) && InQueue(s.threads[t].pc) && !InQueue(w.threads[t].pc)
    requires s.waiting != [] && s.waiting[0].place == s.threads[t].pc.place
    requires w.waiting == s.waiting[1..] && w.entered == s.entered + [s.waiting[0].place] && w.nextPlace == s.nextPlace
    ensures QueueOk(w)
  {
    assert Stands(s, t);
    forall u | u in w.threads ensures Stands(w, u) { assert Stands(s, u); }
    forall i | 0 <= i < |w.waiting| ensures w.waiting[i].thread != t { assert w.waiting[i] == s.waiting[i + 1]; }
  }

  lemma ReadsByMove(s: State, w: State, t: int)
    requires ReadsOk(s) && Moves(s, w, t) && ReadOk(w, t)
    requires w.started == s.started && w.finished == s.finished && w.version == s.version
    ensures ReadsOk(w)
  {
    forall u | u in w.threads ensures ReadOk(w, u) { assert ReadOk(s, u); }
  }

  /** All of the invariant but the part about wakeups. */
  ghost predicate InvBut(s: State) { QueueOk(s) && InsideOk(s) && GroupsOk(s) && ReadsOk(s) }

  lemma JoinKeeps(s: State, t: int)
    requires Inv(s) && t in s.threads && s.threads[t].pc.Arriving?
    ensures InvBut(Join(s, t, s.threads[t].pc))
    ensures !MayEnter(Join(s, t, s.threads[t].pc), s.nextPlace) ==> WakeOk(Join(s, t, s.threads[t].pc))
  {
    var w := Join(s, t, s.threads[t].pc);
    JoinKeepsQueue(s, t);
    InsideByMove(s, w, t);
    GroupsByMove(s, w, t);
    ReadsByMove(s, w, t);
  }

  /** A batch enters once nobody is inside. */
  lemma EnterAloneKeeps(s: State, t: int)
    requires InvBut(s) && t in s.threads && InQueue(s.threads[t].pc) && MayEnter(s, s.threads[t].pc.place)
    requires s.threads[t].pc.want.Exclusive?
    ensures Inv(Enter(s, t, Exclusive, s.threads[t].pc.group))
  {
    var w := Enter(s, t, Exclusive, s.threads[t].pc.group);
    assert Stands(s, t);
    PopKeepsQueue(s, w, t);
    GroupsByMove(s, w, t);
    ReadsByMove(s, w, t);
  }

  lemma ReaderIn(s: State, w: State, t: int)
    requires InsideOk(s) && Moves(s, w, t) && !s.publishing && !s.threads[t].pc.Reading? && w.threads[t].pc.Reading?
    requires w.inside == s.inside + {t} && w.readers == s.readers + 1 && w.publishing == s.publishing
    requires w.holder == s.holder
    requires w.started == s.started && w.finished == s.finished
    ensures InsideOk(w)
  {
    assert t !in s.inside;
  }

  lemma ReaderOut(s: State, w: State, t: int)
    requires InsideOk(s) && Moves(s, w, t) && s.threads[t].pc.Reading? && w.threads[t].pc.Idle?
    requires w.inside == s.inside - {t} && w.readers == s.readers - 1 && w.publishing == s.publishing
    requires w.holder == s.holder
    requires w.started == s.started && w.finished == s.finished
    ensures InsideOk(w)
  {
    assert t in s.inside;
  }

  /** A reader enters beside the others while no batch moves the index. */
  lemma EnterSharedKeeps(s: State, t: int)
    requires InvBut(s) && t in s.threads && InQueue(s.threads[t].pc) && MayEnter(s, s.threads[t].pc.place)
    requires s.threads[t].pc.want.Shared?
    ensures Inv(Enter(s, t, Shared, s.threads[t].pc.group))
  {
    var popped := s.(waiting := s.waiting[1..], entered := s.entered + [s.waiting[0].place]);
    var w := Goto(popped.(readers := s.readers + 1, inside := s.inside + {t}), t, Reading(s.version, NoneMidway(s)));
    assert Stands(s, t) && WellFormed(s.threads[t].pc);
    NoMovers(s);
    PopKeepsQueue(s, w, t);
    ReaderIn(s, w, t);
    GroupsByMove(s, w, t);
    ReadsByMove(s, w, t);
    WakeFrontKeeps(w);
  }

  lemma EnterKeeps(s: State, t: int)
    requires InvBut(s) && t in s.threads && InQueue(s.threads[t].pc) && MayEnter(s, s.threads[t].pc.place)
    ensures Inv(Enter(s, t, s.threads[t].pc.want, s.threads[t].pc.group))
  {
    if s.threads[t].pc.want.Shared? { EnterSharedKeeps(s, t); } else { EnterAloneKeeps(s, t); }
  }

  lemma CheckKeeps(s: State, t: int)
    requires Inv(s) && Enabled(s, t, Check)
    ensures Inv(Apply(s, t, Check))
  {
    if MayEnter(s, s.threads[t].pc.place) {
      EnterKeeps(s, t);
    } else {
      assert WellFormed(s.threads[t].pc);
      MoveKeeps(s, Apply(s, t, Check), t);
    }
  }

  lemma ArriveKeeps(s: State, t: int)
    requires Inv(s) && Enabled(s, t, Arrive)
    ensures Inv(Apply(s, t, Arrive))
  {
    var pc := s.threads[t].pc;
    var q := s.(waiting := s.waiting + [Waiter(s.nextPlace, pc.want, t)], nextPlace := s.nextPlace + 1);
    var j := Join(s, t, pc);
    JoinKeeps(s, t);
    if MayEnter(q, s.nextPlace) {
      EnterKeeps(j, t);
      ArriveEnters(s, t, q, j);
    }
  }

  /** Entering on arrival and entering after having joined come to the same. */
  lemma ArriveEnters(s: State, t: int, q: State, j: State)
    requires t in s.threads && s.threads[t].pc.Arriving? && j == Join(s, t, s.threads[t].pc)
    requires q ==
      s.(waiting := s.waiting + [Waiter(s.nextPlace, s.threads[t].pc.want, t)], nextPlace := s.nextPlace + 1)
    ensures Enter(q, t, s.threads[t].pc.want, s.threads[t].pc.group) ==
      Enter(j, t, s.threads[t].pc.want, s.threads[t].pc.group)
  {
    assert NoneMidway(q) <==> NoneMidway(j) by {
      forall u | u in q.threads ensures Midway(q.threads[u].pc) <==> Midway(j.threads[u].pc) {}
    }
    var gone := q.(waiting := q.waiting[1..], entered := q.entered + [q.waiting[0].place]);
    var left := j.(waiting := j.waiting[1..], entered := j.entered + [j.waiting[0].place]);
    GotoSame(gone, left, t);
    if s.threads[t].pc.want.Shared? {
      var pc := Reading(s.version, NoneMidway(q));
      var one := Goto(gone.(readers := q.readers + 1, inside := q.inside + {t}), t, pc);
      var other := Goto(left.(readers := j.readers + 1, inside := j.inside + {t}), t, pc);
      assert one.threads == other.threads;
      assert one == other;
    } else {
      assert Goto(gone, t, Entered(s.threads[t].pc.group)).threads ==
        Goto(left, t, Entered(s.threads[t].pc.group)).threads;
    }
  }

  lemma GotoSame(a: State, b: State, t: int)
    requires t in a.threads && t in b.threads && b.threads == a.threads[t := a.threads[t].(pc := b.threads[t].pc)]
    ensures forall pc :: Goto(a, t, pc).threads == Goto(b, t, pc).threads
  {}

  // ---- inside ----

  lemma EndReadKeeps(s: State, t: int)
    requires Inv(s) && Enabled(s, t, EndRead)
    ensures Inv(Apply(s, t, EndRead))
  {
    var w := Goto(s.(readers := s.readers - 1, inside := s.inside - {t}), t, Idle);
    ReaderOut(s, w, t);
    QueueByMove(s, w, t);
    GroupsByMove(s, w, t);
    ReadsByMove(s, w, t);
    WakeFrontKeeps(w);
  }

  lemma LeaveKeeps(s: State, t: int)
    requires Inv(s) && Enabled(s, t, Leave)
    ensures Inv(Apply(s, t, Leave))
  {
    var w := Goto(s.(publishing := false), t, Idle);
    QueueByMove(s, w, t);
    GroupsByMove(s, w, t);
    ReadsByMove(s, w, t);
    WakeFrontKeeps(w);
  }

  /** Counting a batch in: a fill that began before will not be taken. */
  lemma StartKeeps(s: State, t: int)
    requires Inv(s) && Enabled(s, t, Start)
    ensures Inv(Apply(s, t, Start))
  {
    var w := Apply(s, t, Start);
    QueueByMove(s, w, t);
    GroupsByMove(s, w, t);
    forall u | u in w.threads ensures ReadOk(w, u) { assert ReadOk(s, u); }
  }

  lemma FinishKeeps(s: State, t: int)
    requires Inv(s) && Enabled(s, t, Finish)
    ensures Inv(Apply(s, t, Finish))
  {
    var w := Apply(s, t, Finish);
    QueueByMove(s, w, t);
    GroupsByMove(s, w, t);
    forall u | u in w.threads ensures ReadOk(w, u) { assert ReadOk(s, u); }
  }

  /** Moving the index, as a leader or under one: nobody reads inside, and no fill outside will be taken. */
  lemma MoveIndexKeeps(s: State, t: int)
    requires Inv(s) && Enabled(s, t, Move)
    ensures Inv(Apply(s, t, Move))
  {
    var w := Apply(s, t, Move);
    FollowersLed(s);
    assert s.publishing && Counted(s.threads[s.holder].pc);
    QueueByMove(s, w, t);
    InsideByMove(s, w, t);
    GroupsByMove(s, w, t);
    forall u | u in w.threads ensures ReadOk(w, u) { assert ReadOk(s, u) && u !in s.inside; }
  }

  // ---- groups ----

  /** What the steps of a group leave alone. */
  lemma AsideFromGroups(s: State, w: State, t: int)
    requires QueueOk(s) && InsideOk(s) && ReadsOk(s) && WakeOk(s) && Moves(s, w, t)
    requires w == s.(threads := w.threads, groups := w.groups, gathering := w.gathering, nextGroup := w.nextGroup)
    requires !InQueue(s.threads[t].pc) && !InQueue(w.threads[t].pc) && ReadOk(w, t)
    requires s.threads[t].pc.Reading? == w.threads[t].pc.Reading? && Holds(s.threads[t].pc) == Holds(w.threads[t].pc)
    requires Counted(s.threads[t].pc) == Counted(w.threads[t].pc)
    ensures QueueOk(w) && InsideOk(w) && ReadsOk(w) && WakeOk(w)
  {
    QueueByMove(s, w, t);
    InsideByMove(s, w, t);
    ReadsByMove(s, w, t);
  }

  lemma JoinGroupFits(th: Threads, gs: Groups, at: int, next: int, t: int)
    requires Fit(th, gs, Some(at), next) && t in th && th[t].pc.Idle?
    ensures Fit(th[t := th[t].(pc := Joining(at))],
                gs[at := gs[at].(count := gs[at].count + 1, joiners := gs[at].joiners + {t})], Some(at), next)
  {
    var tw, gw := th[t := th[t].(pc := Joining(at))],
      gs[at := gs[at].(count := gs[at].count + 1, joiners := gs[at].joiners + {t})];
    assert GroupOk(th, gs, next, at);
    assert t !in gs[at].joiners;
    forall u, id | u in tw && Leads(tw[u].pc, id)
      ensures LeaderOk(tw, gw, Some(at), u, id)
    {
      assert Leads(th[u].pc, id);
    }
    forall u, id | u in tw && Joins(tw[u].pc, id) ensures JoinerOk(tw, gw, u, id) {
      if u != t { assert Joins(th[u].pc, id); }
    }
    forall id | id in gw ensures GroupOk(tw, gw, next, id) { assert GroupOk(th, gs, next, id); }
  }

  lemma NewGroupFits(th: Threads, gs: Groups, next: int, t: int)
    requires Fit(th, gs, None, next) && t in th && th[t].pc.Idle?
    ensures Fit(th[t := th[t].(pc := Arriving(Exclusive, Some(next)))], gs[next := Group(false, 0, t, {})], Some(next),
      next + 1)
  {
    var tw, gw := th[t := th[t].(pc := Arriving(Exclusive, Some(next)))], gs[next := Group(false, 0, t, {})];
    assert next in gs ==> GroupOk(th, gs, next, next);
    forall u, id | u in tw && Leads(tw[u].pc, id) ensures LeaderOk(tw, gw, Some(next), u, id) {
      if u != t { assert Leads(th[u].pc, id); }
    }
    forall u, id | u in tw && Joins(tw[u].pc, id) ensures JoinerOk(tw, gw, u, id) { assert Joins(th[u].pc, id); }
    forall id | id in gw ensures GroupOk(tw, gw, next + 1, id) {
      if id != next { assert GroupOk(th, gs, next, id); }
    }
  }

  lemma PublishGroupedKeeps(s: State, t: int)
    requires Inv(s) && Enabled(s, t, PublishGrouped)
    ensures Inv(Apply(s, t, PublishGrouped))
  {
    AsideFromGroups(s, Apply(s, t, PublishGrouped), t);
    if s.gathering.Some? {
      JoinGroupFits(s.threads, s.groups, s.gathering.value, s.nextGroup, t);
    } else {
      NewGroupFits(s.threads, s.groups, s.nextGroup, t);
    }
  }

  lemma OpenGroupFits(th: Threads, gs: Groups, at: Option<int>, next: int, t: int, g: int)
    requires Fit(th, gs, at, next) && t in th && th[t].pc == Opening(g) && g in gs
    ensures Fit(th[t := th[t].(pc := Notifying(g))], gs[g := gs[g].(open := true)], at, next)
  {
    var tw, gw := th[t := th[t].(pc := Notifying(g))], gs[g := gs[g].(open := true)];
    assert Leads(th[t].pc, g);
    forall u, id | u in tw && Leads(tw[u].pc, id) ensures LeaderOk(tw, gw, at, u, id) { assert Leads(th[u].pc, id); }
    forall u, id | u in tw && Joins(tw[u].pc, id) ensures JoinerOk(tw, gw, u, id) { assert Joins(th[u].pc, id); }
    forall id | id in gw ensures GroupOk(tw, gw, next, id) { assert GroupOk(th, gs, next, id); }
  }

  lemma OpenGroupKeeps(s: State, t: int)
    requires Inv(s) && Enabled(s, t, OpenGroup)
    ensures Inv(Apply(s, t, OpenGroup))
  {
    AsideFromGroups(s, Apply(s, t, OpenGroup), t);
    OpenGroupFits(s.threads, s.groups, s.gathering, s.nextGroup, t, s.threads[t].pc.id);
  }

  /** A thread asleep on a group's condition, and the same thread awake again. */
  predicate Rouses(asleep: Pc, awake: Pc) {
    (asleep.JoinParked? && awake == Joining(asleep.id)) || (asleep.DrainParked? && awake == Draining(asleep.id))
  }

  /** Waking those asleep on a group's condition changes nothing else. */
  lemma NotifyKeeps(s: State, w: State, asleep: Pc, awake: Pc)
    requires Inv(s) && w == s.(threads := Notify(s.threads, asleep, awake)) && Rouses(asleep, awake)
    ensures Inv(w)
  {
    NotifyKeepsGroups(s, w, asleep, awake);
    NotifyKeepsInside(s, w, asleep, awake);
    NotifyKeepsQueue(s, w, asleep, awake);
  }

  lemma NotifyKeepsGroups(s: State, w: State, asleep: Pc, awake: Pc)
    requires GroupsOk(s) && w == s.(threads := Notify(s.threads, asleep, awake)) && Rouses(asleep, awake)
    ensures GroupsOk(w)
  {
    forall u | u in s.threads ensures SameRole(s.threads[u].pc, w.threads[u].pc) {}
    SameRolesFit(s.threads, w.threads, s.groups, s.gathering, s.nextGroup);
  }

  lemma NotifyKeepsInside(s: State, w: State, asleep: Pc, awake: Pc)
    requires InsideOk(s) && w == s.(threads := Notify(s.threads, asleep, awake)) && Rouses(asleep, awake)
    ensures InsideOk(w)
  {}

  lemma NotifyKeepsQueue(s: State, w: State, asleep: Pc, awake: Pc)
    requires QueueOk(s) && ReadsOk(s) && WakeOk(s)
    requires w == s.(threads := Notify(s.threads, asleep, awake)) && Rouses(asleep, awake)
    ensures QueueOk(w) && ReadsOk(w) && WakeOk(w)
  {
    forall u | u in w.threads ensures Stands(w, u) && ReadOk(w, u) { assert Stands(s, u) && ReadOk(s, u); }
  }

  /** A leader whose joiners are all awake goes on. */
  lemma LeadFits(th: Threads, gs: Groups, at: Option<int>, next: int, t: int, g: int)
    requires Fit(th, gs, at, next) && t in th && th[t].pc == Notifying(g)
    requires forall u {:trigger th[u]} :: u in th ==> th[u].pc != JoinParked(g)
    ensures Fit(th[t := th[t].(pc := Leading(Some(g), false))], gs, at, next)
  {
    var tw := th[t := th[t].(pc := Leading(Some(g), false))];
    assert Leads(th[t].pc, g);
    forall u, id | u in tw && Leads(tw[u].pc, id) ensures LeaderOk(tw, gs, at, u, id) { assert Leads(th[u].pc, id); }
    forall u, id | u in tw && Joins(tw[u].pc, id) ensures JoinerOk(tw, gs, u, id) { assert Joins(th[u].pc, id); }
    forall id | id in gs ensures GroupOk(tw, gs, next, id) { assert GroupOk(th, gs, next, id); }
  }

  lemma NotifyGroupKeeps(s: State, t: int)
    requires Inv(s) && Enabled(s, t, NotifyGroup)
    ensures Inv(Apply(s, t, NotifyGroup))
  {
    var g := s.threads[t].pc.id;
    var m := s.(threads := Notify(s.threads, JoinParked(g), Joining(g)));
    NotifyKeeps(s, m, JoinParked(g), Joining(g));
    AsideFromGroups(m, Apply(s, t, NotifyGroup), t);
    LeadFits(m.threads, m.groups, m.gathering, m.nextGroup, t, g);
  }

  lemma StopGatheringFits(th: Threads, gs: Groups, at: Option<int>, next: int, t: int, g: int, moved: bool)
    requires Fit(th, gs, at, next) && t in th && th[t].pc == Leading(Some(g), moved)
    ensures Fit(th[t := th[t].(pc := Draining(g))], gs, None, next)
  {
    var tw := th[t := th[t].(pc := Draining(g))];
    assert Leads(th[t].pc, g);
    forall u, id | u in tw && Leads(tw[u].pc, id) ensures LeaderOk(tw, gs, None, u, id) { assert Leads(th[u].pc, id); }
    forall u, id | u in tw && Joins(tw[u].pc, id) ensures JoinerOk(tw, gs, u, id) { assert Joins(th[u].pc, id); }
    forall id | id in gs ensures GroupOk(tw, gs, next, id) { assert GroupOk(th, gs, next, id); }
  }

  lemma EndMovesKeeps(s: State, t: int)
    requires Inv(s) && Enabled(s, t, EndMoves)
    ensures Inv(Apply(s, t, EndMoves))
  {
    var w, p := Apply(s, t, EndMoves), s.threads[t].pc;
    AsideFromGroups(s, w, t);
    if p.group.Some? {
      StopGatheringFits(s.threads, s.groups, s.gathering, s.nextGroup, t, p.group.value, p.moved);
    } else {
      GroupsByMove(s, w, t);
    }
  }

  /** A leader waits while joiners are left, and is done with its group once none is. */
  lemma DrainFits(th: Threads, gs: Groups, at: Option<int>, next: int, t: int, g: int, q: Pc)
    requires Fit(th, gs, at, next) && t in th && th[t].pc == Draining(g) && g in gs
    requires q == if gs[g].count > 0 then DrainParked(g) else Finishing
    ensures Fit(th[t := th[t].(pc := q)], gs, at, next)
  {
    var tw := th[t := th[t].(pc := q)];
    assert Leads(th[t].pc, g) && GroupOk(th, gs, next, g);
    forall u, id | u in tw && Leads(tw[u].pc, id) ensures LeaderOk(tw, gs, at, u, id) { assert Leads(th[u].pc, id); }
    forall u, id | u in tw && Joins(tw[u].pc, id) ensures JoinerOk(tw, gs, u, id) { assert Joins(th[u].pc, id); }
    forall id | id in gs ensures GroupOk(tw, gs, next, id) { assert GroupOk(th, gs, next, id); }
  }

  lemma DrainKeeps(s: State, t: int)
    requires Inv(s) && Enabled(s, t, Drain)
    ensures Inv(Apply(s, t, Drain))
  {
    var w := Apply(s, t, Drain);
    AsideFromGroups(s, w, t);
    DrainFits(s.threads, s.groups, s.gathering, s.nextGroup, t, s.threads[t].pc.id, w.threads[t].pc);
  }

  lemma JoinLookFits(th: Threads, gs: Groups, at: Option<int>, next: int, t: int, g: int, q: Pc)
    requires Fit(th, gs, at, next) && t in th && th[t].pc == Joining(g) && g in gs
    requires q == if gs[g].open then Following(g, false) else JoinParked(g)
    ensures Fit(th[t := th[t].(pc := q)], gs, at, next)
  {
    var tw := th[t := th[t].(pc := q)];
    assert Joins(th[t].pc, g);
    forall u, id | u in tw && Leads(tw[u].pc, id) ensures LeaderOk(tw, gs, at, u, id) { assert Leads(th[u].pc, id); }
    forall u, id | u in tw && Joins(tw[u].pc, id) ensures JoinerOk(tw, gs, u, id) { assert Joins(th[u].pc, id); }
    forall id | id in gs ensures GroupOk(tw, gs, next, id) { assert GroupOk(th, gs, next, id); }
  }

  lemma JoinLookKeeps(s: State, t: int)
    requires Inv(s) && Enabled(s, t, JoinLook)
    ensures Inv(Apply(s, t, JoinLook))
  {
    var w := Apply(s, t, JoinLook);
    AsideFromGroups(s, w, t);
    JoinLookFits(s.threads, s.groups, s.gathering, s.nextGroup, t, s.threads[t].pc.id, w.threads[t].pc);
  }

  /** A joiner that ends leaves the group; if it was the last, its leader is not asleep. */
  lemma EndFollowFits(th: Threads, gs: Groups, at: Option<int>, next: int, t: int, g: int)
    requires Fit(th, gs, at, next) && t in th && th[t].pc.Following? && th[t].pc.id == g && g in gs
    requires gs[g].count == 1 ==> forall u {:trigger th[u]} :: u in th ==> th[u].pc != DrainParked(g)
    ensures Fit(th[t := th[t].(pc := Idle)], gs[g := gs[g].(count := gs[g].count - 1, joiners := gs[g].joiners - {t})],
      at, next)
  {
    var tw, gw := th[t := th[t].(pc := Idle)],
      gs[g := gs[g].(count := gs[g].count - 1, joiners := gs[g].joiners - {t})];
    assert Joins(th[t].pc, g) && GroupOk(th, gs, next, g);
    forall u, id | u in tw && Leads(tw[u].pc, id) ensures LeaderOk(tw, gw, at, u, id) { assert Leads(th[u].pc, id); }
    forall u, id | u in tw && Joins(tw[u].pc, id) ensures JoinerOk(tw, gw, u, id) { assert Joins(th[u].pc, id); }
    forall id | id in gw ensures GroupOk(tw, gw, next, id) { assert GroupOk(th, gs, next, id); }
  }

  lemma EndFollowKeeps(s: State, t: int)
    requires Inv(s) && Enabled(s, t, EndFollow)
    ensures Inv(Apply(s, t, EndFollow))
  {
    var g := s.threads[t].pc.id;
    if s.groups[g].count == 1 {
      var m := s.(threads := Notify(s.threads, DrainParked(g), Draining(g)));
      NotifyKeeps(s, m, DrainParked(g), Draining(g));
      FollowerGone(m, t, g);
    } else {
      FollowerGone(s, t, g);
    }
  }

  lemma FollowerGone(s: State, t: int, g: int)
    requires Inv(s) && t in s.threads && s.threads[t].pc.Following? && s.threads[t].pc.id == g && g in s.groups
    requires s.groups[g].count == 1 ==> forall u {:trigger s.threads[u]} ::
      u in s.threads ==> s.threads[u].pc != DrainParked(g)
    ensures Inv(Goto(s.(groups := s.groups[g := s.groups[g].(count := s.groups[g].count - 1,
      joiners := s.groups[g].joiners - {t})]), t, Idle))
  {
    var gone := s.groups[g].(count := s.groups[g].count - 1, joiners := s.groups[g].joiners - {t});
    AsideFromGroups(s, Goto(s.(groups := s.groups[g := gone]), t, Idle), t);
    EndFollowFits(s.threads, s.groups, s.gathering, s.nextGroup, t, g);
  }

  // ---- every step and every run ----

  lemma StepKeeps(s: State, t: int, step: Step)
    requires Inv(s) && Enabled(s, t, step)
    ensures Inv(Apply(s, t, step))
  {
    match step
    case Look => LookKeeps(s, t);
    case Accept => AcceptKeeps(s, t);
    case PublishGrouped => PublishGroupedKeeps(s, t);
    case Arrive => ArriveKeeps(s, t);
    case Wake => WakeKeeps(s, t, step);
    case Spurious => WakeKeeps(s, t, step);
    case Check => CheckKeeps(s, t);
    case EndRead => EndReadKeeps(s, t);
    case Start => StartKeeps(s, t);
    case OpenGroup => OpenGroupKeeps(s, t);
    case NotifyGroup => NotifyGroupKeeps(s, t);
    case Move => MoveIndexKeeps(s, t);
    case EndMoves => EndMovesKeeps(s, t);
    case Drain => DrainKeeps(s, t);
    case Finish => FinishKeeps(s, t);
    case Leave => LeaveKeeps(s, t);
    case JoinLook => JoinLookKeeps(s, t);
    case EndFollow => EndFollowKeeps(s, t);
    case _ => AskKeeps(s, t, step);
  }

  lemma InitOk(threads: set<int>)
    ensures Inv(Init(threads))
  {}

  lemma {:induction false} RunKeeps(s: State, run: seq<(int, Step)>, w: State)
    requires Inv(s) && IsRun(s, run, w)
    ensures Inv(w)
    decreases |run|
  {
    if run != [] {
      StepKeeps(s, run[0].0, run[0].1);
      RunKeeps(Apply(s, run[0].0, run[0].1), run[1..], w);
    }
  }

  /** A state some run of these threads comes to. */
  ghost predicate Reached(s: State) { exists threads: set<int>, run :: IsRun(Init(threads), run, s) }

  lemma ReachedOk(s: State)
    requires Reached(s)
    ensures Inv(s)
  {
    var threads: set<int>, run :| IsRun(Init(threads), run, s);
    InitOk(threads);
    RunKeeps(Init(threads), run, s);
  }
}
