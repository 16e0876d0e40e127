/** The fiber scheduler's park and resume protocol (vm/concurrency/Scheduler.c): workers with
    their own ready queues, the PARKING hand-off, timers, armed descriptors, monitor stripes,
    the sole poller, idle workers and shutdown. A step is one hold of the scheduler lock, or
    less; a worker's program counter says where between two holds it is. */
module Scheduler {

  import opened Options

  type FiberId = nat
  type Worker = nat
  type Stripe = nat

  datatype FiberState = READY | RUNNING | PARKING | SUSPENDED | DONE
  datatype ParkIntent = PARK_NONE | PARK_YIELD | PARK_SUSPEND
  /** Who is to wake a suspended fiber: anyone, its timer, its descriptor, or a signaller. */
  datatype Source = Anyone | Timer | Descriptor | Monitor

  datatype Fiber = Fiber(state: FiberState, home: Worker, intent: ParkIntent, pending: bool, source: Source)

  /** Where the poller is: about to work out how long it may wait, in epoll_wait, with a deadline
      or without, or back from it since a time. */
  datatype Stage = Entering | Blocked(until: Option<int>) | Returned(at: int)

  /** Where a worker is. On fiber f: popped it, running it, leaving its stack after it chose
      to park or finished, or off its stack and about to commit it. */
  datatype Pc =
    | Loop
    | Popped(f: FiberId)
    | OnFiber(f: FiberId)
    | Leaving(f: FiberId)
    | Committing(f: FiberId)
    | Polling(tags: set<FiberId>, stage: Stage)
    | IdleEnter
    | Asleep(notified: bool)
    | Exited

  /** timers holds each sleeper's deadline; kicked is the wake descriptor, written and not yet
      drained. */
  datatype State = State(
    fibers: map<FiberId, Fiber>,
    pcs: seq<Pc>,
    ready: seq<seq<FiberId>>,
    nextHome: Worker,
    timers: map<FiberId, int>,
    armed: set<FiberId>,
    armedWaiters: nat,
    runningCount: nat,
    pollerActive: bool,
    kicked: bool,
    now: int,
    shutdown: bool,
    holder: map<Stripe, FiberId>,
    waiters: map<FiberId, Stripe>,
    fetched: map<FiberId, FiberId>)

  // ----- small operations -----

  /** The wake sources, counters and flags are the same. */
  predicate SameRest(s: State, t: State)
  {
    t == s.(fibers := t.fibers, pcs := t.pcs, ready := t.ready, nextHome := t.nextHome, kicked := t.kicked)
  }

  function SetFiber(s: State, f: FiberId, x: Fiber): State
  {
    s.(fibers := s.fibers[f := x])
  }

  function SetPc(s: State, w: Worker, pc: Pc): State
    requires w < |s.pcs|
  {
    s.(pcs := s.pcs[w := pc])
  }

  function Notify(pcs: seq<Pc>): (r: seq<Pc>)
    ensures |r| == |pcs|
    ensures forall w {:trigger r[w]} :: 0 <= w < |pcs| ==> r[w] == if pcs[w].Asleep? then Asleep(true) else pcs[w]
  {
    seq(|pcs|, w requires 0 <= w < |pcs| => if pcs[w].Asleep? then Asleep(true) else pcs[w])
  }

  function Less(n: nat): nat
  {
    if n > 0 then n - 1 else 0
  }

  /** osCondBroadcast on the work condition. */
  function Broadcast(s: State): State
  {
    s.(pcs := Notify(s.pcs))
  }

  /** readyPush and signalWork: the home worker's queue, every sleeper told, the poller kicked. */
  function Push(s: State, f: FiberId): (t: State)
    requires f in s.fibers && s.fibers[f].home < |s.ready|
    ensures SameRest(s, t) && t.pcs == Notify(s.pcs) && t.kicked == (s.kicked || s.pollerActive)
  {
    var home := s.fibers[f].home;
    Broadcast(s.(ready := s.ready[home := s.ready[home] + [f]], kicked := s.kicked || s.pollerActive))
  }

  function MakeReady(s: State, f: FiberId): (t: State)
    requires f in s.fibers && s.fibers[f].home < |s.ready|
    ensures SameRest(s, t) && t.pcs == Notify(s.pcs) && t.kicked == (s.kicked || s.pollerActive)
    ensures t.fibers == s.fibers[f := s.fibers[f].(state := READY, pending := false)]
  {
    Push(SetFiber(s, f, s.fibers[f].(state := READY, pending := false)), f)
  }

  /** schedulerResumeLocked. */
  function Resume(s: State, f: FiberId): (t: State)
    requires f in s.fibers ==> s.fibers[f].home < |s.ready|
    ensures SameRest(s, t) && t.pcs == if f in s.fibers && s.fibers[f].state == SUSPENDED then Notify(s.pcs) else s.pcs
  {
    if f !in s.fibers then s
    else if s.fibers[f].state == SUSPENDED then MakeReady(s, f)
    else if s.fibers[f].state == PARKING then SetFiber(s, f, s.fibers[f].(pending := true))
    else s
  }

  /** parkSelf, up to the switch: the intent is recorded, PARKING published. */
  function Park(s: State, w: Worker, intent: ParkIntent, source: Source): State
    requires w < |s.pcs| && s.pcs[w].OnFiber? && s.pcs[w].f in s.fibers
  {
    var f := s.pcs[w].f;
    SetPc(SetFiber(s, f, s.fibers[f].(state := PARKING, intent := intent, pending := false, source := source)), w,
      Leaving(f))
  }

  function Pending(s: State): bool
  {
    s.armedWaiters > 0 || s.timers != map[]
  }

  ghost predicate AllQueuesEmpty(s: State)
  {
    forall w {:trigger s.ready[w]} :: 0 <= w < |s.ready| ==> s.ready[w] == []
  }

  /** The idle loop's guard, negated: this worker has something to get up for. */
  predicate WakesUp(s: State, w: Worker)
    requires w < |s.ready|
  {
    s.ready[w] != [] || s.shutdown || (Pending(s) && !s.pollerActive)
  }

  // ----- steps -----

  /** What a running fiber does. */
  datatype Act =
    | Yield
    | Suspend
    | Sleep(deadline: int)
    | WaitFd
    | StripeEnter(stripe: Stripe)
    | StripeExit(stripe: Stripe)
    | Enqueue(stripe: Stripe)
    | ParkOnStripe(stripe: Stripe)
    | Fetch(stripe: Stripe, f: FiberId)
    | ResumeFetched(f: FiberId)
    | ResumeOther(f: FiberId)
    | SpawnReady(f: FiberId)
    | SpawnSuspended(f: FiberId)
    | Finish

  /** What a worker does between fibers. */
  datatype Op =
    | Pop
    | Run
    | SwitchOff
    | Commit
    | BeginShutdown
    | Exit
    | BecomePoller
    | GoIdle
    | Wait
    | Return
    | Report(f: FiberId)
    | Deliver(f: FiberId)
    | Expire(f: FiberId)
    | PollDone(seen: int)
    | Recheck

  datatype Step = ByFiber(w: Worker, act: Act) | ByWorker(w: Worker, op: Op) | Clock(to: int)

  ghost predicate IsHeld(s: State, stripe: Stripe, f: FiberId)
  {
    stripe in s.holder && s.holder[stripe] == f
  }

  ghost predicate HoldsNone(s: State, f: FiberId)
  {
    forall st {:trigger st in s.holder} :: st in s.holder ==> s.holder[st] != f
  }

  /** A suspended fiber is woken by its own source only. */
  ghost predicate FreeToResume(s: State, f: FiberId)
  {
    f in s.fibers && (s.fibers[f].state == SUSPENDED || s.fibers[f].state == PARKING) ==> s.fibers[f].source == Anyone
  }

  ghost predicate Fresh(s: State, f: FiberId)
  {
    f !in s.fibers
  }

  ghost predicate Known(s: State, f: FiberId)
  {
    f in s.fibers && s.fibers[f].home < |s.ready|
  }

  /** Fiber me may take this act. Fibers hold at most one stripe, park with none but the one
      they hand over, and a fiber that has queued itself goes on to park. */
  ghost predicate ActEnabled(s: State, me: FiberId, act: Act)
  {
    match act
    case Yield => HoldsNone(s, me)
    case Suspend => HoldsNone(s, me)
    case Sleep(deadline) => HoldsNone(s, me) && s.now <= deadline
    case WaitFd => HoldsNone(s, me)
    case StripeEnter(st) => st !in s.holder && HoldsNone(s, me)
    case StripeExit(st) => IsHeld(s, st, me) && me !in s.waiters
    case Enqueue(st) => IsHeld(s, st, me) && me !in s.waiters
    case ParkOnStripe(st) => IsHeld(s, st, me) && me in s.waiters && s.waiters[me] == st
    case Fetch(st, f) => IsHeld(s, st, me) && f != me && f in s.waiters && s.waiters[f] == st
    case ResumeFetched(f) => f in s.fetched && s.fetched[f] == me && Known(s, f)
    case ResumeOther(f) => FreeToResume(s, f) && (f in s.fibers ==> Known(s, f))
    case SpawnReady(f) => Fresh(s, f) && s.nextHome < |s.ready|
    case SpawnSuspended(f) => Fresh(s, f) && s.nextHome < |s.ready|
    case Finish => HoldsNone(s, me)
  }

  /** At the loop top with its own queue empty. */
  ghost predicate OutOfWork(s: State, w: Worker)
    requires w < |s.pcs|
  {
    w < |s.ready| && s.pcs[w].Loop? && s.ready[w] == []
  }

  ghost predicate Drained(s: State)
  {
    s.runningCount == 0 && AllQueuesEmpty(s) && !Pending(s)
  }

  predicate TimeIsUp(s: State, until: Option<int>)
  {
    until.Some? && until.value <= s.now
  }

  ghost predicate IsEarliest(timers: map<FiberId, int>, d: int)
  {
    (exists f {:trigger timers[f]} :: f in timers && timers[f] == d) &&
      (forall f {:trigger timers[f]} :: f in timers ==> d <= timers[f])
  }

  lemma {:induction false} SomeEarliest(timers: map<FiberId, int>) returns (d: int)
    requires timers != map[]
    ensures IsEarliest(timers, d)
    decreases |timers|
  {
    var f :| f in timers;
    var rest := timers - {f};
    d := timers[f];
    if rest != map[] {
      assert rest.Keys == timers.Keys - {f};
      var e := SomeEarliest(rest);
      forall g | g in timers ensures g == f || e <= timers[g] { if g != f { var _ := rest[g]; } }
      if e < d { d := e; }
    }
  }

  /** How long waitForEvents may wait: the deadline at the top of the timer heap, if any. */
  ghost function Earliest(timers: map<FiberId, int>): (r: Option<int>)
    ensures r.None? <==> timers == map[]
    ensures r.Some? ==> IsEarliest(timers, r.value)
  {
    if timers == map[] then None
    else
      assert exists d :: IsEarliest(timers, d) by { var _ := SomeEarliest(timers); }
      var d :| IsEarliest(timers, d); Some(d)
  }

  ghost predicate OpEnabled(s: State, w: Worker, op: Op)
    requires w < |s.pcs|
  {
    match op
    case Pop => w < |s.ready| && s.pcs[w].Loop? && s.ready[w] != []
    case Run => s.pcs[w].Popped? && s.pcs[w].f in s.fibers
    case SwitchOff => s.pcs[w].Leaving?
    case Commit => s.pcs[w].Committing? && Known(s, s.pcs[w].f) && s.runningCount > 0
    case BeginShutdown => OutOfWork(s, w) && !s.shutdown && Drained(s)
    case Exit => OutOfWork(s, w) && s.shutdown
    case BecomePoller => OutOfWork(s, w) && !s.shutdown && !Drained(s) && Pending(s) && !s.pollerActive
    case GoIdle => OutOfWork(s, w) && !s.shutdown && !Drained(s) && !(Pending(s) && !s.pollerActive)
    case Wait => s.pcs[w].Polling? && s.pcs[w].stage.Entering?
    case Return => s.pcs[w].Polling? &&
      (s.pcs[w].stage.Returned? || (s.pcs[w].stage.Blocked? && (s.kicked || TimeIsUp(s, s.pcs[w].stage.until))))
    case Report(f) => s.pcs[w].Polling? && !s.pcs[w].stage.Entering? && f in s.armed
    case Deliver(f) => s.pcs[w].Polling? && s.pcs[w].stage.Returned? && f in s.pcs[w].tags && Known(s, f)
    case Expire(f) => s.pcs[w].Polling? && s.pcs[w].stage.Returned? && f in s.timers && s.timers[f] <= s.now &&
      Known(s, f)
    case PollDone(seen) =>
      && s.pcs[w].Polling? && s.pcs[w].stage.Returned? && s.pcs[w].tags == {}
      && s.pcs[w].stage.at <= seen <= s.now && forall f {:trigger s.timers[f]} :: f in s.timers ==> seen < s.timers[f]
    case Recheck => w < |s.ready| && (s.pcs[w].IdleEnter? || s.pcs[w].Asleep?)
  }

  ghost predicate Enabled(s: State, step: Step)
  {
    match step
    case ByFiber(w, act) => w < |s.pcs| && s.pcs[w].OnFiber? && s.pcs[w].f in s.fibers && ActEnabled(s, s.pcs[w].f, act)
    case ByWorker(w, op) => w < |s.pcs| && OpEnabled(s, w, op)
    case Clock(to) => s.now <= to
  }

  /** registerFiber: homes are dealt round. */
  function Register(s: State, f: FiberId, state: FiberState): State
  {
    SetFiber(s, f, Fiber(state, s.nextHome, PARK_NONE, false, Anyone)).(nextHome :=
      if s.nextHome + 1 < |s.pcs| then s.nextHome + 1 else 0)
  }

  /** It yielded, or was resumed while it parked. */
  predicate Requeues(x: Fiber)
  {
    x.state != DONE && (x.intent == PARK_YIELD || x.pending)
  }

  /** commitFiber. */
  function Committed(s: State, f: FiberId): (t: State)
    requires f in s.fibers && s.fibers[f].home < |s.ready|
    ensures SameRest(s, t)
    ensures t.pcs == if Requeues(s.fibers[f]) then Notify(s.pcs) else s.pcs
  {
    if s.fibers[f].state == DONE then s.(fibers := s.fibers - {f})
    else
      var t := SetFiber(s, f, s.fibers[f].(state := SUSPENDED, intent := PARK_NONE));
      if Requeues(s.fibers[f]) then MakeReady(t, f) else t
  }

  /** The fiber committed, with the worker back at its loop. */
  function CommitFiber(s: State, w: Worker, f: FiberId): (t: State)
    requires w < |s.pcs| && f in s.fibers && s.fibers[f].home < |s.ready| && s.runningCount > 0
    ensures SameRest(s.(runningCount := s.runningCount - 1), t)
    ensures t.pcs == if Requeues(s.fibers[f]) then Notify(s.pcs[w := Loop]) else s.pcs[w := Loop]
  {
    Committed(SetPc(s.(runningCount := s.runningCount - 1), w, Loop), f)
  }

  ghost function DoAct(s: State, w: Worker, act: Act): State
    requires w < |s.pcs| && s.pcs[w].OnFiber? && s.pcs[w].f in s.fibers && ActEnabled(s, s.pcs[w].f, act)
  {
    var me := s.pcs[w].f;
    match act
    case Yield => Park(s, w, PARK_YIELD, Anyone)
    case Suspend => Park(s, w, PARK_SUSPEND, Anyone)
    case Sleep(deadline) => Park(s.(timers := s.timers[me := deadline]), w, PARK_SUSPEND, Timer)
    case WaitFd => Park(s.(armed := s.armed + {me}, armedWaiters := s.armedWaiters + 1), w, PARK_SUSPEND, Descriptor)
    case StripeEnter(st) => s.(holder := s.holder[st := me])
    case StripeExit(st) => s.(holder := s.holder - {st})
    case Enqueue(st) => s.(waiters := s.waiters[me := st])
    case ParkOnStripe(st) => Park(s.(holder := s.holder - {st}), w, PARK_SUSPEND, Monitor)
    case Fetch(st, f) => s.(waiters := s.waiters - {f}, fetched := s.fetched[f := me])
    case ResumeFetched(f) => Resume(s.(fetched := s.fetched - {f}), f)
    case ResumeOther(f) => Resume(s, f)
    case SpawnReady(f) => Push(Register(s, f, READY), f)
    case SpawnSuspended(f) => Register(s, f, SUSPENDED)
    case Finish => SetPc(SetFiber(s, me, s.fibers[me].(state := DONE)), w, Leaving(me))
  }

  function PopFiber(s: State, w: Worker): State
    requires w < |s.pcs| && w < |s.ready| && s.ready[w] != []
  {
    SetPc(s, w, Popped(s.ready[w][0])).(ready := s.ready[w := s.ready[w][1..]], runningCount := s.runningCount + 1)
  }

  function RunFiber(s: State, w: Worker, f: FiberId): State
    requires w < |s.pcs| && f in s.fibers
  {
    SetPc(SetFiber(s, f, s.fibers[f].(state := RUNNING)), w, OnFiber(f))
  }

  /** The poller takes f's tag from its batch. */
  function Taken(s: State, w: Worker, f: FiberId): State
    requires w < |s.pcs| && s.pcs[w].Polling?
  {
    SetPc(s, w, Polling(s.pcs[w].tags - {f}, s.pcs[w].stage)).(armedWaiters := Less(s.armedWaiters))
  }

  /** waitForEvents. */
  ghost function DoPoll(s: State, w: Worker, op: Op): State
    requires w < |s.pcs| && s.pcs[w].Polling? && OpEnabled(s, w, op) &&
      (op.Wait? || op.Return? || op.Report? || op.Deliver? || op.Expire? || op.PollDone?)
  {
    match op
    case Wait => SetPc(s, w, Polling(s.pcs[w].tags, Blocked(Earliest(s.timers))))
    case Return => SetPc(s.(kicked := false), w, Polling(s.pcs[w].tags, Returned(s.now)))
    case Report(f) => SetPc(s.(armed := s.armed - {f}), w, Polling(s.pcs[w].tags + {f}, Returned(s.now)))
    case Deliver(f) =>
      Resume(Taken(s, w, f), f)
    case Expire(f) => Resume(s.(timers := s.timers - {f}), f)
    case PollDone(_) => Broadcast(SetPc(s.(pollerActive := false), w, Loop))
  }

  ghost function DoOp(s: State, w: Worker, op: Op): State
    requires w < |s.pcs| && OpEnabled(s, w, op)
  {
    match op
    case Pop => PopFiber(s, w)
    case Run => RunFiber(s, w, s.pcs[w].f)
    case SwitchOff => SetPc(s, w, Committing(s.pcs[w].f))
    case Commit => CommitFiber(s, w, s.pcs[w].f)
    case BeginShutdown => Broadcast(SetPc(s.(shutdown := true), w, Exited))
    case Exit => SetPc(s, w, Exited)
    case BecomePoller => SetPc(s.(pollerActive := true), w, Polling({}, Entering))
    case GoIdle => SetPc(s, w, IdleEnter)
    case Recheck => SetPc(s, w, if WakesUp(s, w) then Loop else Asleep(false))
    case _ => DoPoll(s, w, op)
  }

  ghost function Do(s: State, step: Step): State
    requires Enabled(s, step)
  {
    match step
    case ByFiber(w, act) => DoAct(s, w, act)
    case ByWorker(w, op) => DoOp(s, w, op)
    case Clock(to) => s.(now := to)
  }
}
