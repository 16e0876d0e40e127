/** What a run does to one fiber or one stripe: a suspended fiber stays so until it is woken, and is
    then last in its queue; a monitor stripe is its holder's until it lets go; a waiter stays queued
    until a holder fetches it, and fetched until that fiber wakes it. */
module SchedulerFates {
  import opened Scheduler
  import opened SchedulerInvariant
  import opened SchedulerWakes
  import opened SchedulerRuns
  import opened SchedulerOrder

  ghost predicate IsSuspended(s: State, f: FiberId, src: Source)
  {
    f in s.fibers && s.fibers[f].state == SUSPENDED && s.fibers[f].source == src
  }

  /** f is ready, last in the queue of its home; the other queues are as before. */
  ghost predicate Woken(s: State, t: State, f: FiberId)
    requires Known(s, f)
  {
    f in t.fibers && t.fibers[f].state == READY && t.fibers[f].home == s.fibers[f].home && t.ready == Behind(s, f)
  }

  // ----- suspended fibers -----

  lemma ResumeFate(s: State, g: FiberId, f: FiberId)
    requires (g in s.fibers ==> Known(s, g)) && f in s.fibers && s.fibers[f].state == SUSPENDED && Known(s, f)
    ensures if g == f then Woken(s, Resume(s, g), f)
      else f in Resume(s, g).fibers && Resume(s, g).fibers[f] == s.fibers[f]
  {
    hide SameRest, Notify;
  }

  lemma ActFate(s: State, v: Worker, act: Act, f: FiberId)
    requires Core(s) && Enabled(s, ByFiber(v, act)) && Known(s, f) && s.fibers[f].state == SUSPENDED
    ensures if Wakes(ByFiber(v, act), f) then Woken(s, DoAct(s, v, act), f)
      else f in DoAct(s, v, act).fibers && DoAct(s, v, act).fibers[f] == s.fibers[f]
  {
    WorkerAt(s, v);
    hide Core;
    if act.ResumeFetched? {
      ResumeFate(s.(fetched := s.fetched - {act.f}), act.f, f);
    } else if act.ResumeOther? {
      ResumeFate(s, act.f, f);
    } else {
      hide Woken;
    }
    hide Resume, SameRest, HoldsNone, Notify;
  }

  lemma OpFate(s: State, v: Worker, op: Op, f: FiberId)
    requires Core(s) && Enabled(s, ByWorker(v, op)) && Known(s, f) && s.fibers[f].state == SUSPENDED
    ensures if Wakes(ByWorker(v, op), f) then Woken(s, DoOp(s, v, op), f)
      else f in DoOp(s, v, op).fibers && DoOp(s, v, op).fibers[f] == s.fibers[f]
  {
    WorkerAt(s, v);
    hide Core;
    if op.Commit? {
      CommittedFibers(s, v, s.pcs[v].f);
    } else if op.Wait? || op.Return? || op.Report? || op.Deliver? || op.Expire? || op.PollDone? {
      PollFate(s, v, op, f);
    }
    hide DoPoll, Woken, CommitFiber, AllQueuesEmpty, SameRest;
  }

  lemma PollFate(s: State, v: Worker, op: Op, f: FiberId)
    requires Enabled(s, ByWorker(v, op)) && Known(s, f) && s.fibers[f].state == SUSPENDED
    requires op.Wait? || op.Return? || op.Report? || op.Deliver? || op.Expire? || op.PollDone?
    ensures if Wakes(ByWorker(v, op), f) then Woken(s, DoPoll(s, v, op), f)
      else f in DoPoll(s, v, op).fibers && DoPoll(s, v, op).fibers[f] == s.fibers[f]
  {
    if op.Deliver? { ResumeFate(Taken(s, v, op.f), op.f, f); }
    if op.Expire? { ResumeFate(s.(timers := s.timers - {op.f}), op.f, f); }
    hide Resume, SameRest, Notify, AllQueuesEmpty;
  }

  lemma FiberKnown(s: State, f: FiberId)
    requires Core(s) && f in s.fibers
    ensures Known(s, f)
  {
  }

  /** A suspended fiber is ready, behind all others of its worker, after a step that wakes it, and
      as it was after any other. */
  lemma SuspendedFate(s: State, step: Step, f: FiberId)
    requires Inv(s) && Enabled(s, step) && f in s.fibers && s.fibers[f].state == SUSPENDED
    ensures Known(s, f)
    ensures if Wakes(step, f) then Woken(s, Do(s, step), f)
      else f in Do(s, step).fibers && Do(s, step).fibers[f] == s.fibers[f]
  {
    hide Core, DoAct, DoOp, ActEnabled, OpEnabled, Woken;
    FiberKnown(s, f);
    match step {
      case ByFiber(v, act) => ActFate(s, v, act, f);
      case ByWorker(v, op) => OpFate(s, v, op, f);
      case Clock(_) =>
    }
  }

  /** The first waking step of a run is step k, from state u. */
  ghost predicate FirstWake(s: State, steps: seq<Step>, f: FiberId, k: nat, u: State)
  {
    k < |steps| && Wakes(steps[k], f) && !WokenIn(steps[..k], f) && Runs(s, steps[..k], u) && Enabled(u, steps[k])
  }

  /** A fiber suspended on a source stays so as long as nobody wakes it; the first wake makes it
      ready, at the end of its home queue. */
  lemma {:induction false} SuspendedUntilWoken(s: State, steps: seq<Step>, t: State, f: FiberId, src: Source)
    requires Inv(s) && Runs(s, steps, t) && IsSuspended(s, f, src)
    ensures !WokenIn(steps, f) ==> IsSuspended(t, f, src)
    ensures WokenIn(steps, f) ==> exists k: nat, u: State ::
      FirstWake(s, steps, f, k, u) && IsSuspended(u, f, src) && Known(u, f) && Woken(u, Do(u, steps[k]), f)
    decreases |steps|
  {
    hide Inv, Enabled, Do, Wakes, WokenIn;
    if steps == [] {
      assert !WokenIn(steps, f) by { NoneWoken(f); }
    } else {
      var u, rest := Do(s, steps[0]), steps[1..];
      SuspendedFate(s, steps[0], f);
      WokenFirst(steps, f);
      if Wakes(steps[0], f) {
        assert steps[..0] == [];
        NoneWoken(f);
        assert FirstWake(s, steps, f, 0, s);
      } else {
        StepKeeps(s, steps[0]);
        SuspendedUntilWoken(u, rest, t, f, src);
        if WokenIn(rest, f) {
          var k: nat, x: State :| FirstWake(u, rest, f, k, x) && IsSuspended(x, f, src) && Known(x, f) &&
            Woken(x, Do(x, rest[k]), f);
          assert steps[..k + 1][1..] == rest[..k] && steps[k + 1] == rest[k];
          WokenFirst(steps[..k + 1], f);
          assert FirstWake(s, steps, f, k + 1, x);
        }
      }
    }
  }

  lemma NoneWoken(f: FiberId)
    ensures !WokenIn([], f)
  {
  }

  // ----- new fibers -----

  ghost predicate OneMore(s: State, t: State, f: FiberId)
  {
    && f !in s.fibers && t.fibers.Keys == s.fibers.Keys + {f}
    && forall g {:trigger t.fibers[g]} :: g in s.fibers ==> t.fibers[g] == s.fibers[g]
  }

  lemma RegisterParts(s: State, f: FiberId, state: FiberState)
    requires Fresh(s, f)
    ensures var t := Register(s, f, state);
      OneMore(s, t, f) && t.ready == s.ready && f in t.fibers && t.fibers[f].state == state &&
      t.fibers[f].home == s.nextHome && t.fibers[f].source == Anyone
  {
  }

  lemma PushParts(s: State, f: FiberId)
    requires Known(s, f)
    ensures Push(s, f).ready == Behind(s, f) && Push(s, f).fibers == s.fibers
  {
    hide SameRest, Notify;
  }

  /** A new fiber is last in the queue of the worker whose turn it is, or suspended, to be resumed
      by anyone; no other fiber is touched. */
  lemma Spawned(s: State, step: Step)
    requires Inv(s) && Enabled(s, step) && Spawns(step)
    ensures var t, f := Do(s, step), step.act.f;
      && OneMore(s, t, f) && s.nextHome < |s.ready|
      && if step.act.SpawnReady? then
           f in t.fibers && t.fibers[f].state == READY && t.ready == s.ready[s.nextHome := s.ready[s.nextHome] + [f]]
         else IsSuspended(t, f, Anyone) && t.ready == s.ready
  {
    hide Inv, SameRest, Notify, HoldsNone, Register, Push, OneMore;
    var f := step.act.f;
    if step.act.SpawnReady? {
      RegisterParts(s, f, READY);
      PushParts(Register(s, f, READY), f);
      assert OneMore(s, Push(Register(s, f, READY), f), f) by { SameFibers(s, Register(s, f, READY), f); }
    } else {
      RegisterParts(s, f, SUSPENDED);
    }
  }

  lemma SameFibers(s: State, t: State, f: FiberId)
    requires OneMore(s, t, f) && Known(t, f)
    ensures OneMore(s, Push(t, f), f)
  {
    PushParts(t, f);
    hide Push;
  }

  // ----- monitor stripes -----

  predicate Enters(step: Step, st: Stripe)
  {
    step.ByFiber? && step.act == StripeEnter(st)
  }

  predicate Releases(step: Step, st: Stripe)
  {
    step.ByFiber? && (step.act == StripeExit(st) || step.act == ParkOnStripe(st))
  }

  /** The tables of the monitors change only by their own acts. */
  lemma OpTables(s: State, w: Worker, op: Op)
    requires Enabled(s, ByWorker(w, op))
    ensures var t := DoOp(s, w, op); t.holder == s.holder && t.waiters == s.waiters && t.fetched == s.fetched
  {
    if op.Wait? || op.Return? || op.Report? || op.Deliver? || op.Expire? || op.PollDone? { PollTables(s, w, op); }
    hide DoPoll, CommitFiber, AllQueuesEmpty;
  }

  lemma PollTables(s: State, w: Worker, op: Op)
    requires Enabled(s, ByWorker(w, op)) &&
      (op.Wait? || op.Return? || op.Report? || op.Deliver? || op.Expire? || op.PollDone?)
    ensures var t := DoPoll(s, w, op); t.holder == s.holder && t.waiters == s.waiters && t.fetched == s.fetched
  {
    hide Resume, AllQueuesEmpty, Notify;
  }

  /** A stripe is taken when free, by the fiber that enters; let go by its holder; and else keeps
      its holder. */
  lemma StripeMoves(s: State, step: Step, st: Stripe)
    requires Inv(s) && Enabled(s, step)
    ensures var t := Do(s, step);
      && (Enters(step, st) ==> st !in s.holder && IsHeld(t, st, s.pcs[step.w].f))
      && (Releases(step, st) ==> IsHeld(s, st, s.pcs[step.w].f) && st !in t.holder)
      && (!Enters(step, st) && !Releases(step, st) ==> forall f :: IsHeld(t, st, f) <==> IsHeld(s, st, f))
  {
    hide Core, TimersOk, DescriptorsOk, MonitorsOk, Pool, DoAct, DoOp, OpEnabled, HoldsNone;
    match step {
      case ByFiber(w, act) => ActTables(s, w, act);
      case ByWorker(w, op) => OpTables(s, w, op);
      case Clock(_) =>
    }
  }

  /** No two fibers are on a stripe: from its entry to its exit or its wait a fiber holds it,
      and nobody enters meanwhile. */
  lemma {:induction false} StripeExclusive(s: State, steps: seq<Step>, t: State, st: Stripe, f: FiberId)
    requires Inv(s) && Runs(s, steps, t) && IsHeld(s, st, f)
    requires forall i {:trigger steps[i]} :: 0 <= i < |steps| ==> !Releases(steps[i], st)
    ensures IsHeld(t, st, f)
    ensures forall i {:trigger steps[i]} :: 0 <= i < |steps| ==> !Enters(steps[i], st)
    decreases |steps|
  {
    hide Inv, Enabled, Do, Enters, Releases;
    if steps != [] {
      var rest := steps[1..];
      StepKeeps(s, steps[0]);
      StripeMoves(s, steps[0], st);
      forall i | 0 <= i < |rest| ensures !Releases(rest[i], st) { assert rest[i] == steps[i + 1]; }
      StripeExclusive(Do(s, steps[0]), rest, t, st, f);
      forall i | 0 < i < |steps| ensures !Enters(steps[i], st) { assert steps[i] == rest[i - 1]; }
    }
  }

  // ----- waiters -----

  predicate Fetches(step: Step, f: FiberId)
  {
    step.ByFiber? && step.act.Fetch? && step.act.f == f
  }

  predicate ResumesFetched(step: Step, f: FiberId)
  {
    step.ByFiber? && step.act == ResumeFetched(f)
  }

  ghost predicate WaitsAt(s: State, f: FiberId, st: Stripe)
  {
    f in s.waiters && s.waiters[f] == st
  }

  ghost predicate FetchedBy(s: State, f: FiberId, g: FiberId)
  {
    f in s.fetched && s.fetched[f] == g
  }

  /** A waiter goes from its queue only to the fiber that fetches it, which holds the stripe, and
      from there only when that fiber resumes it. */
  lemma WaiterMoves(s: State, step: Step, f: FiberId)
    requires Inv(s) && Enabled(s, step)
    ensures forall st | WaitsAt(s, f, st) :: if Fetches(step, f)
      then IsHeld(s, st, s.pcs[step.w].f) && FetchedBy(Do(s, step), f, s.pcs[step.w].f) && f !in Do(s, step).waiters
      else WaitsAt(Do(s, step), f, st)
    ensures forall g | FetchedBy(s, f, g) :: if ResumesFetched(step, f)
      then s.pcs[step.w].f == g && f !in Do(s, step).fetched else FetchedBy(Do(s, step), f, g)
  {
    hide Core, TimersOk, DescriptorsOk, Pool, DoAct, DoOp, OpEnabled, HoldsNone, IsHeld, Parked, Queuing;
    match step {
      case ByFiber(w, act) =>
        ActTables(s, w, act);
      case ByWorker(w, op) => OpTables(s, w, op);
      case Clock(_) =>
    }
  }

  /** A waiter stays queued on its stripe until it is fetched. */
  lemma {:induction false} WaitsUntilFetched(s: State, steps: seq<Step>, t: State, f: FiberId, st: Stripe)
    requires Inv(s) && Runs(s, steps, t) && WaitsAt(s, f, st)
    requires forall i {:trigger steps[i]} :: 0 <= i < |steps| ==> !Fetches(steps[i], f)
    ensures WaitsAt(t, f, st)
    decreases |steps|
  {
    hide Inv, Enabled, Do, Fetches, ResumesFetched, WaitsAt, FetchedBy;
    if steps != [] {
      var rest := steps[1..];
      StepKeeps(s, steps[0]);
      WaiterMoves(s, steps[0], f);
      forall i | 0 <= i < |rest| ensures !Fetches(rest[i], f) { assert rest[i] == steps[i + 1]; }
      WaitsUntilFetched(Do(s, steps[0]), rest, t, f, st);
    }
  }

  /** A fetched waiter stays with the fiber that fetched it until that fiber resumes it. */
  lemma {:induction false} FetchedUntilResumed(s: State, steps: seq<Step>, t: State, f: FiberId, g: FiberId)
    requires Inv(s) && Runs(s, steps, t) && FetchedBy(s, f, g)
    requires forall i {:trigger steps[i]} :: 0 <= i < |steps| ==> !ResumesFetched(steps[i], f)
    ensures FetchedBy(t, f, g)
    decreases |steps|
  {
    hide Inv, Enabled, Do, Fetches, ResumesFetched, WaitsAt, FetchedBy;
    if steps != [] {
      var rest := steps[1..];
      StepKeeps(s, steps[0]);
      WaiterMoves(s, steps[0], f);
      forall i | 0 <= i < |rest| ensures !ResumesFetched(rest[i], f) { assert rest[i] == steps[i + 1]; }
      FetchedUntilResumed(Do(s, steps[0]), rest, t, f, g);
    }
  }

  // ----- the poller and the idle -----

  /** One worker polls at a time, while the flag is up; the waiters counted are those armed and
      those it has yet to resume; and as many fibers run as workers have one in hand. */
  lemma SolePoller(t: State, w: Worker)
    requires Reachable(t) && w < |t.pcs|
    ensures t.pollerActive <==> exists v: Worker :: v < |t.pcs| && t.pcs[v].Polling?
    ensures t.pcs[w].Polling? ==> t.armedWaiters == |t.armed| + |t.pcs[w].tags|
    ensures t.pcs[w].Polling? ==> forall v {:trigger t.pcs[v]} :: 0 <= v < |t.pcs| && t.pcs[v].Polling? ==> v == w
    ensures !t.pollerActive ==> t.armedWaiters == |t.armed|
    ensures t.runningCount == |Holders(t)|
  {
    hide Reachable, Core, TimersOk, MonitorsOk;
    ReachableInv(t);
  }

  /** The wake descriptor is written only when a fiber is queued while somebody polls, and reading
      it empties it. */
  lemma KickedByPush(s: State, step: Step)
    requires Inv(s) && Enabled(s, step) && Do(s, step).kicked
    ensures !(step.ByWorker? && step.op.Return?)
    ensures s.kicked || (s.pollerActive && Do(s, step).ready != s.ready)
  {
    match step {
      case ByFiber(w, act) => ActKicks(s, w, act);
      case ByWorker(w, op) => OpKicks(s, w, op);
      case Clock(_) =>
    }
  }

  lemma ResumeKicks(s: State, f: FiberId)
    requires f in s.fibers ==> Known(s, f)
    ensures Resume(s, f).kicked ==> s.kicked || (s.pollerActive && Resume(s, f).ready != s.ready)
  {
    hide SameRest, Notify;
    ResumeParts(s, f);
    if f in s.fibers { BehindDiffers(s, f); }
  }

  lemma BehindDiffers(s: State, f: FiberId)
    requires Known(s, f)
    ensures Behind(s, f) != s.ready
  {
    assert |Behind(s, f)[s.fibers[f].home]| == |s.ready[s.fibers[f].home]| + 1;
  }

  lemma ActKicks(s: State, w: Worker, act: Act)
    requires Enabled(s, ByFiber(w, act)) && DoAct(s, w, act).kicked
    ensures s.kicked || (s.pollerActive && DoAct(s, w, act).ready != s.ready)
  {
    if act.ResumeFetched? { ResumeKicks(s.(fetched := s.fetched - {act.f}), act.f); }
    if act.ResumeOther? { ResumeKicks(s, act.f); }
    if act.SpawnReady? { BehindDiffers(Register(s, act.f, READY), act.f); }
    hide Resume, SameRest, HoldsNone;
  }

  lemma CommitKicks(s: State, w: Worker, f: FiberId)
    requires w < |s.pcs| && Known(s, f) && s.runningCount > 0 && CommitFiber(s, w, f).kicked
    ensures s.kicked || (s.pollerActive && CommitFiber(s, w, f).ready != s.ready)
  {
    hide SameRest, Notify, Behind;
    SchedulerOrder.CommitParts(s, w, f);
    BehindDiffers(s, f);
  }

  lemma OpKicks(s: State, w: Worker, op: Op)
    requires Enabled(s, ByWorker(w, op)) && DoOp(s, w, op).kicked
    ensures !op.Return? && (s.kicked || (s.pollerActive && DoOp(s, w, op).ready != s.ready))
  {
    if op.Commit? { CommitKicks(s, w, s.pcs[w].f); }
    if op.Deliver? { ResumeKicks(Taken(s, w, op.f), op.f); }
    if op.Expire? { ResumeKicks(s.(timers := s.timers - {op.f}), op.f); }
    hide Resume, CommitFiber, SameRest, AllQueuesEmpty;
  }

  /** A worker that has gone idle gets up exactly at a check that finds something for it: a fiber
      of its own, the end, or events nobody waits for. */
  lemma IdleUntilWork(s: State, step: Step, w: Worker)
    requires Inv(s) && Enabled(s, step) && w < |s.pcs| && (s.pcs[w].IdleEnter? || s.pcs[w].Asleep?)
    ensures w < |s.ready| && w < |Do(s, step).pcs|
    ensures Do(s, step).pcs[w].Loop? <==> step == ByWorker(w, Recheck) && WakesUp(s, w)
    ensures !Do(s, step).pcs[w].Loop? ==> Do(s, step).pcs[w].IdleEnter? || Do(s, step).pcs[w].Asleep?
  {
    hide Core, TimersOk, DescriptorsOk, MonitorsOk, Pool, DoAct, DoOp, HoldsNone, WakesUp, AllQueuesEmpty;
    match step {
      case ByFiber(v, act) => ActIdle(s, v, act, w);
      case ByWorker(v, op) => OpIdle(s, v, op, w);
      case Clock(_) =>
    }
  }

  ghost predicate StaysIdle(s: State, t: State, w: Worker)
  {
    && w < |s.pcs| && w < |t.pcs|
    && ((s.pcs[w].IdleEnter? && t.pcs[w].IdleEnter?) || (s.pcs[w].Asleep? && t.pcs[w].Asleep?))
  }

  lemma ActIdle(s: State, v: Worker, act: Act, w: Worker)
    requires Enabled(s, ByFiber(v, act)) && w < |s.pcs| && (s.pcs[w].IdleEnter? || s.pcs[w].Asleep?)
    ensures StaysIdle(s, DoAct(s, v, act), w)
  {
    hide Resume, SameRest, HoldsNone;
  }

  lemma OpIdle(s: State, v: Worker, op: Op, w: Worker)
    requires Enabled(s, ByWorker(v, op)) && w < |s.pcs| && (s.pcs[w].IdleEnter? || s.pcs[w].Asleep?)
    ensures if ByWorker(v, op) == ByWorker(w, Recheck)
      then w < |s.ready| && DoOp(s, v, op).pcs == s.pcs[w := if WakesUp(s, w) then Loop else Asleep(false)]
      else StaysIdle(s, DoOp(s, v, op), w)
  {
    hide Resume, SameRest, CommitFiber, AllQueuesEmpty, WakesUp;
  }
}
