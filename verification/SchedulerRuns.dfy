/** The scheduler's guarantees over whole runs, in every interleaving. */
module SchedulerRuns {
  import opened Scheduler
  import opened SchedulerInvariant
  import opened SchedulerWakes
  import opened SchedulerPolling

  ghost function Holders(s: State): set<Worker>
  {
    set w: Worker | w < |s.pcs| && Holding(s.pcs[w])
  }

  /** The worker will look at its queue, run, poll, or not fall asleep at its next check. */
  ghost predicate Active(s: State, w: Worker)
  {
    && w < |s.pcs| == |s.ready|
    && (s.pcs[w].Loop? || Holding(s.pcs[w]) || s.pcs[w].Polling? ||
      ((s.pcs[w].IdleEnter? || s.pcs[w] == Asleep(true)) && WakesUp(s, w)))
  }

  ghost predicate Sleepers(s: State)
  {
    && |s.pcs| == |s.ready|
    && (forall w {:trigger s.pcs[w]} ::
      0 <= w < |s.pcs| && s.pcs[w] == Asleep(false) ==> s.ready[w] == [] && !s.shutdown)
    && (forall w {:trigger s.pcs[w]} :: 0 <= w < |s.pcs| && s.pcs[w].Exited? ==> s.shutdown)
  }

  ghost predicate Quiet(s: State)
  {
    s.runningCount == 0 && AllQueuesEmpty(s) && !Pending(s)
  }

  ghost predicate Pool(s: State)
  {
    && s.runningCount == |Holders(s)| && Sleepers(s)
    && (!s.shutdown ==> exists w: Worker :: Active(s, w))
    && (s.shutdown ==> Quiet(s))
  }

  ghost predicate Inv(s: State)
  {
    Core(s) && TimersOk(s) && DescriptorsOk(s) && MonitorsOk(s) && PollOk(s) && Pool(s)
  }

  lemma HoldersSame(s: State, t: State)
    requires |s.pcs| == |t.pcs| && forall v {:trigger t.pcs[v]} ::
      0 <= v < |s.pcs| ==> (Holding(s.pcs[v]) <==> Holding(t.pcs[v]))
    ensures Holders(s) == Holders(t)
  {
    forall v: Worker ensures v in Holders(s) <==> v in Holders(t) {
      if v < |s.pcs| { var _ := t.pcs[v]; }
    }
  }

  lemma HolderRuns(s: State, w: Worker)
    requires Pool(s) && w < |s.pcs| && Holding(s.pcs[w])
    ensures !s.shutdown && s.runningCount > 0
  {
    assert w in Holders(s);
  }

  /** Queues are as they were, or every sleeper has been told. */
  ghost predicate Told(s: State, t: State)
  {
    t.ready == s.ready || (forall v {:trigger t.pcs[v]} :: 0 <= v < |t.pcs| ==> t.pcs[v] != Asleep(false))
  }

  /** The other workers are as they were, or have only been told. */
  ghost predicate OthersSame(s: State, t: State, w: Worker)
  {
    && |s.pcs| == |t.pcs|
    && forall v {:trigger t.pcs[v]} ::
      0 <= v < |s.pcs| && v != w ==> t.pcs[v] == s.pcs[v] || (s.pcs[v].Asleep? && t.pcs[v] == Asleep(true))
  }

  lemma ResumeTells(s: State, f: FiberId, w: Worker)
    requires (f in s.fibers ==> Known(s, f)) && w < |s.pcs| && !s.pcs[w].Asleep?
    ensures Told(s, Resume(s, f)) && |Resume(s, f).ready| == |s.ready|
    ensures OthersSame(s, Resume(s, f), w) && Resume(s, f).pcs[w] == s.pcs[w]
  {
    hide SameRest;
  }

  lemma ActPool(s: State, w: Worker, act: Act)
    requires Enabled(s, ByFiber(w, act))
    ensures var t := DoAct(s, w, act);
      Told(s, t) && OthersSame(s, t, w) && w < |t.pcs| && Holding(t.pcs[w]) && |t.ready| == |s.ready|
  {
    hide SameRest, HoldsNone, Resume;
    if act.ResumeFetched? { ResumeTells(s.(fetched := s.fetched - {act.f}), act.f, w); }
    if act.ResumeOther? { ResumeTells(s, act.f, w); }
  }

  /** A step that leaves its worker holding a fiber, or at the loop top, or polling. */
  lemma PoolBusy(s: State, t: State, w: Worker)
    requires Pool(s) && Told(s, t) && OthersSame(s, t, w) && w < |s.pcs| && |t.ready| == |s.ready|
    requires !s.shutdown && !t.shutdown && t.runningCount == s.runningCount
    requires Holding(s.pcs[w]) <==> Holding(t.pcs[w])
    requires Holding(t.pcs[w]) || t.pcs[w].Loop? || t.pcs[w].Polling?
    ensures Pool(t)
  {
    HoldersSame(s, t);
    assert Active(t, w);
    hide Holders, Active;
    forall v | 0 <= v < |t.pcs| && t.pcs[v] == Asleep(false)
      ensures t.ready[v] == [] { assert s.pcs[v] == Asleep(false); }
    forall v | 0 <= v < |t.pcs| ensures !t.pcs[v].Exited? { var _ := s.pcs[v]; }
  }

  lemma ActKeepsPool(s: State, w: Worker, act: Act)
    requires Inv(s) && Enabled(s, ByFiber(w, act))
    ensures Pool(DoAct(s, w, act))
  {
    HolderRuns(s, w);
    ActPool(s, w, act);
    ActPollSame(s, w, act);
    hide Core, TimersOk, DescriptorsOk, MonitorsOk, Pool, Told, OthersSame, DoAct, ActEnabled;
    PoolBusy(s, DoAct(s, w, act), w);
  }

  lemma PoolPop(s: State, w: Worker)
    requires Pool(s) && Enabled(s, ByWorker(w, Pop))
    ensures Pool(DoOp(s, w, Pop))
  {
    var t := DoOp(s, w, Pop);
    HolderAdded(s, t, w);
    assert Active(t, w);
    hide Holders, Active, Quiet;
    assert !s.shutdown by { assert s.shutdown ==> Quiet(s); QueuedNotQuiet(s, w); }
    forall v | 0 <= v < |t.pcs| && t.pcs[v] == Asleep(false)
      ensures t.ready[v] == [] { assert s.pcs[v] == Asleep(false); }
  }

  lemma QueuedNotQuiet(s: State, w: Worker)
    requires w < |s.ready| && s.ready[w] != []
    ensures !Quiet(s)
  {}

  lemma HolderAdded(s: State, t: State, w: Worker)
    requires w < |s.pcs| && !Holding(s.pcs[w]) && |t.pcs| == |s.pcs| && Holding(t.pcs[w])
    requires forall v {:trigger t.pcs[v]} :: 0 <= v < |s.pcs| && v != w ==> t.pcs[v] == s.pcs[v]
    ensures |Holders(t)| == |Holders(s)| + 1
  {
    assert Holders(t) == Holders(s) + {w} && w !in Holders(s);
  }

  lemma CommitTells(s: State, w: Worker)
    requires Enabled(s, ByWorker(w, Commit))
    ensures var t := DoOp(s, w, Commit); Told(s, t) && OthersSame(s, t, w) && t.pcs[w].Loop? && |t.ready| == |s.ready|
  {
    CommitParts(s, w, s.pcs[w].f);
    hide CommitFiber, SameRest;
  }

  lemma HolderGone(s: State, t: State, w: Worker)
    requires w < |s.pcs| && Holding(s.pcs[w]) && OthersSame(s, t, w) && !Holding(t.pcs[w])
    ensures |Holders(t)| == |Holders(s)| - 1
  {
    forall v: Worker ensures v in Holders(t) <==> v in Holders(s) && v != w { if v < |t.pcs| { var _ := t.pcs[v]; } }
    assert Holders(t) == Holders(s) - {w} && w in Holders(s);
  }

  lemma PoolCommit(s: State, w: Worker)
    requires Pool(s) && Enabled(s, ByWorker(w, Commit))
    ensures Pool(DoOp(s, w, Commit))
  {
    var t := DoOp(s, w, Commit);
    HolderRuns(s, w);
    CommitTells(s, w);
    assert t.runningCount == s.runningCount - 1 && t.shutdown == s.shutdown;
    hide DoOp, OpEnabled;
    HolderGone(s, t, w);
    assert Active(t, w);
    hide Holders, Active;
    forall v | 0 <= v < |t.pcs| && t.pcs[v] == Asleep(false)
      ensures t.ready[v] == [] { assert s.pcs[v] == Asleep(false); }
    forall v | 0 <= v < |t.pcs| ensures !t.pcs[v].Exited? { var _ := s.pcs[v]; }
  }

  /** Going idle: something else is afoot, and someone is there to see to it. */
  lemma PoolIdle(s: State, w: Worker)
    requires Pool(s) && DescriptorsOk(s) && Enabled(s, ByWorker(w, GoIdle))
    ensures Pool(DoOp(s, w, GoIdle))
  {
    var t := DoOp(s, w, GoIdle);
    HoldersSame(s, t);
    var v := Witness(s, w);
    assert Active(t, v);
  }

  lemma Witness(s: State, w: Worker) returns (v: Worker)
    requires Pool(s) && DescriptorsOk(s) && Enabled(s, ByWorker(w, GoIdle))
    ensures v != w && Active(s, v) && (s.pcs[v].IdleEnter? || s.pcs[v].Asleep? ==> s.ready[v] != [])
  {
    if s.runningCount > 0 {
      assert Holders(s) != {};
      v :| v in Holders(s);
    } else if !AllQueuesEmpty(s) {
      var u :| 0 <= u < |s.ready| && s.ready[u] != [];
      v := u;
      assert s.pcs[v] != Asleep(false);
    } else {
      var u :| 0 <= u < |s.pcs| && s.pcs[u].Polling?;
      v := u;
    }
  }

  lemma PoolRecheck(s: State, w: Worker)
    requires Pool(s) && Enabled(s, ByWorker(w, Recheck))
    ensures Pool(DoOp(s, w, Recheck))
  {
    var t := DoOp(s, w, Recheck);
    HoldersSame(s, t);
    if !s.shutdown {
      if WakesUp(s, w) {
        assert Active(t, w);
      } else {
        var v: Worker :| Active(s, v);
        assert Active(t, v);
      }
    }
  }

  lemma PoolShutdown(s: State, w: Worker)
    requires Pool(s) && Enabled(s, ByWorker(w, BeginShutdown))
    ensures Pool(DoOp(s, w, BeginShutdown))
  {
    HoldersSame(s, DoOp(s, w, BeginShutdown));
  }

  /** Steps of a pool that is shut down, or a worker leaving it. */
  lemma PoolDown(s: State, w: Worker, op: Op)
    requires Pool(s) && Enabled(s, ByWorker(w, op)) && s.shutdown &&
      (op.Exit? || op.Wait? || op.Return? || op.PollDone?)
    ensures Pool(DoOp(s, w, op))
  {
    HoldersSame(s, DoOp(s, w, op));
  }

  lemma OpKeepsPool(s: State, w: Worker, op: Op)
    requires Inv(s) && Enabled(s, ByWorker(w, op))
    ensures Pool(DoOp(s, w, op))
  {
    assert op.Exit? ==> s.shutdown;
    hide Core, TimersOk, DescriptorsOk, MonitorsOk, PollOk, Pool, DoOp, OpEnabled;
    if op.Pop? {
      PoolPop(s, w);
    } else if op.Commit? {
      PoolCommit(s, w);
    } else if op.GoIdle? {
      PoolIdle(s, w);
    } else if op.Recheck? {
      PoolRecheck(s, w);
    } else if op.BeginShutdown? {
      PoolShutdown(s, w);
    } else if op.Exit? || ((op.Wait? || op.Return? || op.PollDone?) && s.shutdown) {
      PoolDown(s, w, op);
    } else {
      PoolOther(s, w, op);
    }
  }

  lemma OtherTells(s: State, w: Worker, op: Op)
    requires Enabled(s, ByWorker(w, op))
    requires op.Run? || op.SwitchOff? || op.BecomePoller? || op.Wait? || op.Return? || op.Report? || op.Deliver? ||
      op.Expire? || op.PollDone?
    ensures var t := DoOp(s, w, op);
      Told(s, t) && OthersSame(s, t, w) && |t.ready| == |s.ready| && (Holding(s.pcs[w]) <==> Holding(t.pcs[w])) &&
      (Holding(t.pcs[w]) || t.pcs[w].Loop? || t.pcs[w].Polling?)
  {
    hide Resume, SameRest;
    if op.Deliver? { ResumeTells(Taken(s, w, op.f), op.f, w); }
    if op.Expire? { ResumeTells(s.(timers := s.timers - {op.f}), op.f, w); }
  }

  lemma PoolOther(s: State, w: Worker, op: Op)
    requires Pool(s) && DescriptorsOk(s) && Enabled(s, ByWorker(w, op))
    requires op.Run? || op.SwitchOff? || op.BecomePoller? || op.Report? || op.Deliver? || op.Expire? ||
      ((op.Wait? || op.Return? || op.PollDone?) && !s.shutdown)
    ensures Pool(DoOp(s, w, op))
  {
    var t := DoOp(s, w, op);
    if op.Run? || op.SwitchOff? { HolderRuns(s, w); }
    assert !s.shutdown;
    OtherTells(s, w, op);
    hide Pool, DescriptorsOk, Resume, Told, OthersSame, Notify;
    PoolBusy(s, t, w);
  }

  // ----- runs -----

  lemma ClockKeeps(s: State, to: int)
    requires Inv(s)
    ensures Inv(s.(now := to))
  {
    var t := s.(now := to);
    CoreSame(s, t);
    HoldersSame(s, t);
    ClockWakes(s, to);
    hide Core, TimersOk, DescriptorsOk, MonitorsOk, Holders;
    if !s.shutdown { var w: Worker :| Active(s, w); assert Active(t, w); }
    forall w | 0 <= w < |t.pcs| ensures PollerOk(t, w) { assert PollerOk(s, w); }
  }

  lemma ClockWakes(s: State, to: int)
    requires TimersOk(s) && DescriptorsOk(s) && MonitorsOk(s)
    ensures TimersOk(s.(now := to)) && DescriptorsOk(s.(now := to)) && MonitorsOk(s.(now := to))
  {
    var t := s.(now := to);
    forall f, src ensures Parked(t, f, src) <==> Parked(s, f, src) {}
    forall f ensures Tagged(t, f) <==> Tagged(s, f) {}
    forall f ensures Queuing(t, f) <==> Queuing(s, f) {}
    hide Parked, Tagged, Queuing;
  }

  lemma StepKeeps(s: State, step: Step)
    requires Inv(s) && Enabled(s, step)
    ensures Inv(Do(s, step))
  {
    match step {
      case ByFiber(w, act) =>
        ActKeepsCore(s, w, act);
        ActKeepsTimers(s, w, act);
        ActKeepsDescriptors(s, w, act);
        ActKeepsMonitors(s, w, act);
        ActKeepsPoll(s, w, act);
        ActKeepsPool(s, w, act);
      case ByWorker(w, op) =>
        OpKeepsCore(s, w, op);
        OpKeepsTimers(s, w, op);
        OpKeepsDescriptors(s, w, op);
        OpKeepsMonitors(s, w, op);
        OpKeepsPoll(s, w, op);
        OpKeepsPool(s, w, op);
      case Clock(to) => ClockKeeps(s, to);
    }
  }

  /** Before the workers start: fibers spawned ready on their home queues or suspended, and
      nothing else. */
  ghost predicate Init(s: State)
  {
    && Core(s) && (forall w {:trigger s.pcs[w]} :: 0 <= w < |s.pcs| ==> s.pcs[w].Loop?)
    && (forall f {:trigger s.fibers[f]} :: f in s.fibers ==> s.fibers[f].source == Anyone)
    && s.timers == map[] && s.armed == {} && s.armedWaiters == 0 && s.runningCount == 0 && !s.pollerActive &&
      !s.shutdown
    && s.holder == map[] && s.waiters == map[] && s.fetched == map[]
  }

  lemma InitInv(s: State)
    requires Init(s)
    ensures Inv(s)
  {
    hide Queues, Workers, Places;
    assert Holders(s) == {};
    assert s.pcs[0].Loop? && Active(s, 0);
    assert PollOk(s) by { forall w | 0 <= w < |s.pcs| ensures PollerOk(s, w) { assert s.pcs[w].Loop?; } }
  }

  ghost predicate Runs(s: State, steps: seq<Step>, t: State)
    decreases |steps|
  {
    if steps == [] then t == s else Enabled(s, steps[0]) && Runs(Do(s, steps[0]), steps[1..], t)
  }

  ghost predicate Reachable(t: State)
  {
    exists s: State, steps: seq<Step> :: Init(s) && Runs(s, steps, t)
  }

  lemma {:induction false} RunKeepsInv(s: State, steps: seq<Step>, t: State)
    requires Inv(s) && Runs(s, steps, t)
    ensures Inv(t)
    decreases |steps|
  {
    hide Inv, Enabled, Do;
    if steps != [] {
      StepKeeps(s, steps[0]);
      RunKeepsInv(Do(s, steps[0]), steps[1..], t);
    }
  }

  lemma ReachableInv(t: State)
    requires Reachable(t)
    ensures Inv(t)
  {
    hide Inv, Runs;
    var s: State, steps: seq<Step> :| Init(s) && Runs(s, steps, t);
    InitInv(s);
    RunKeepsInv(s, steps, t);
  }

  // ----- the guarantees -----

  /** No wakeup is lost: a suspended fiber's own source still has it in hand. */
  lemma NoLostWakeup(t: State, f: FiberId)
    requires Reachable(t) && f in t.fibers && t.fibers[f].state == SUSPENDED
    ensures t.fibers[f].source == Timer ==> f in t.timers
    ensures t.fibers[f].source == Descriptor ==> f in t.armed || Tagged(t, f)
    ensures t.fibers[f].source == Monitor ==> f in t.waiters || f in t.fetched
  {
    ReachableInv(t);
    assert Parked(t, f, t.fibers[f].source);
    hide Core, Pool, Reachable;
  }

  /** A source that fires finds its fiber waiting: suspended, and then ready at home; or still
      parking, and then marked. */
  lemma FiredWakeCounts(t: State, f: FiberId)
    requires Reachable(t) && (f in t.timers || f in t.armed || Tagged(t, f) || f in t.fetched)
    ensures Known(t, f)
    ensures t.fibers[f].state == SUSPENDED || t.fibers[f].state == PARKING
    ensures Waking(Resume(t, f), f, t.fibers[f].home)
  {
    ReachableInv(t);
    assert Parked(t, f, Timer) || Parked(t, f, Descriptor) || Parked(t, f, Monitor);
    assert f in t.fibers && t.fibers[f].home < |t.ready|;
    hide Inv, Reachable, Waking, Resume;
    ParkedWaking(t, f);
  }

  lemma ParkedWaking(s: State, f: FiberId)
    requires Known(s, f) && (s.fibers[f].state == SUSPENDED || s.fibers[f].state == PARKING)
    ensures Waking(Resume(s, f), f, s.fibers[f].home)
  {
    hide Notify, SameRest;
    if s.fibers[f].state == SUSPENDED {
      var q := Resume(s, f).ready[s.fibers[f].home];
      assert q[|q| - 1] == f;
    }
  }

  ghost predicate Waking(s: State, f: FiberId, home: Worker)
  {
    f in s.fibers && ((s.fibers[f].state == PARKING && s.fibers[f].pending) ||
      (s.fibers[f].state == READY && home < |s.ready| && f in s.ready[home]))
  }

  /** Resuming anyone leaves a fiber that is being woken so. */
  lemma ResumeWaking(s: State, g: FiberId, f: FiberId)
    requires (g in s.fibers ==> Known(s, g)) && f in s.fibers && s.fibers[f].state == PARKING && s.fibers[f].pending
    ensures Waking(Resume(s, g), f, s.fibers[f].home)
  {
    hide SameRest, Notify, MakeReady;
  }

  lemma ActWaking(s: State, w: Worker, act: Act, f: FiberId)
    requires Core(s) && Enabled(s, ByFiber(w, act)) && f in s.fibers && s.fibers[f].state == PARKING &&
      s.fibers[f].pending
    ensures Waking(DoAct(s, w, act), f, s.fibers[f].home)
  {
    WorkerAt(s, w);
    hide Core, Notify, HoldsNone, SameRest, Resume, MakeReady;
    if act.ResumeFetched? { ResumeWaking(s.(fetched := s.fetched - {act.f}), act.f, f); }
    if act.ResumeOther? { ResumeWaking(s, act.f, f); }
  }

  lemma CommitWaking(s: State, w: Worker, f: FiberId)
    requires Core(s) && Enabled(s, ByWorker(w, Commit)) && f in s.fibers && s.fibers[f].state == PARKING &&
      s.fibers[f].pending
    ensures Waking(DoOp(s, w, Commit), f, s.fibers[f].home)
  {
    WorkerAt(s, w);
    CommittedFibers(s, w, s.pcs[w].f);
    hide Core, Notify, SameRest;
    if s.pcs[w].f == f {
      var q := DoOp(s, w, Commit).ready[s.fibers[f].home];
      assert q[|q| - 1] == f;
    }
  }

  lemma OpWaking(s: State, w: Worker, op: Op, f: FiberId)
    requires Core(s) && Enabled(s, ByWorker(w, op)) && f in s.fibers && s.fibers[f].state == PARKING &&
      s.fibers[f].pending
    ensures Waking(DoOp(s, w, op), f, s.fibers[f].home)
  {
    WorkerAt(s, w);
    if op.Commit? { CommitWaking(s, w, f); }
    hide Core, Notify, SameRest, Resume, CommitFiber, AllQueuesEmpty;
    if op.Deliver? { ResumeWaking(Taken(s, w, op.f), op.f, f); }
    if op.Expire? { ResumeWaking(s.(timers := s.timers - {op.f}), op.f, f); }
  }

  /** A wake that lands during the hand-off stays recorded until the fiber is ready at home. */
  lemma WakeWhileParkingEndsReady(t: State, f: FiberId, step: Step)
    requires Reachable(t) && f in t.fibers && t.fibers[f].state == PARKING && t.fibers[f].pending && Enabled(t, step)
    ensures Waking(Do(t, step), f, t.fibers[f].home)
  {
    ReachableInv(t);
    hide Core, TimersOk, DescriptorsOk, MonitorsOk, Pool, Reachable, Waking, DoAct, DoOp, ActEnabled, OpEnabled;
    match step
    case ByFiber(w, act) => ActWaking(t, w, act, f);
    case ByWorker(w, op) => OpWaking(t, w, op, f);
    case Clock(_) =>
  }

  /** In epoll_wait, something will bring the poller back: a kick, a deadline, a descriptor. */
  ghost predicate WillReturn(s: State, pc: Pc)
  {
    pc.Polling? && pc.stage.Blocked? ==> s.kicked || pc.stage.until.Some? || s.armed != {}
  }

  /** While the pool is up, some worker is not asleep: it is at its loop, on a fiber, polling
      with something to wait for, or about to find that it must not sleep. */
  lemma NeverAllAsleep(t: State)
    requires Reachable(t) && !t.shutdown
    ensures exists w: Worker {:trigger t.pcs[w]} ::
      w < |t.pcs| && t.pcs[w] != Asleep(false) && !t.pcs[w].Exited? && Active(t, w) && WillReturn(t, t.pcs[w])
  {
    ReachableInv(t);
    hide Reachable, Core;
    var w: Worker :| Active(t, w);
    assert t.pcs[w] != Asleep(false);
    assert PollerOk(t, w);
  }

  /** A worker with fibers on its queue is not stuck: it is at its loop, on a fiber, about to
      check its queue, or polling and back from epoll_wait or kicked out of it. */
  lemma QueuesServed(t: State, w: Worker)
    requires Reachable(t) && w < |t.ready| && t.ready[w] != []
    ensures w < |t.pcs| && !t.shutdown
    ensures match t.pcs[w]
      case Asleep(notified) => notified
      case Polling(_, stage) => stage.Returned? || t.kicked
      case Exited => false
      case _ => true
  {
    ReachableInv(t);
    hide Reachable, Core, TimersOk, DescriptorsOk, MonitorsOk;
    QueuedNotQuiet(t, w);
    assert PollerOk(t, w);
  }

  /** Put the other way round: a poller in epoll_wait that has not been kicked has no fiber of
      its own to run. */
  lemma PollerQueueEmpty(t: State, w: Worker)
    requires Reachable(t) && w < |t.pcs| && t.pcs[w].Polling? && t.pcs[w].stage.Blocked? && !t.kicked
    ensures w < |t.ready| && t.ready[w] == []
  {
    ReachableInv(t);
    hide Reachable, Core, TimersOk, DescriptorsOk, MonitorsOk;
    assert PollerOk(t, w);
  }

  /** After shutdown nothing is left that could run: every remaining fiber is suspended with no
      timer and no descriptor to wait for. */
  lemma ShutdownOnlyWhenDrained(t: State)
    requires Reachable(t) && t.shutdown
    ensures t.timers == map[] && t.armed == {} && AllQueuesEmpty(t)
    ensures forall w {:trigger t.pcs[w]} :: 0 <= w < |t.pcs| ==> !Holding(t.pcs[w])
    ensures forall f {:trigger t.fibers[f]} ::
      f in t.fibers ==>
      t.fibers[f].state == SUSPENDED &&
      (t.fibers[f].source == Anyone || t.fibers[f].source == Monitor)
  {
    ReachableInv(t);
    hide Reachable;
    forall w: Worker | w < |t.pcs| ensures !Holding(t.pcs[w]) { assert w in Holders(t) <==> Holding(t.pcs[w]); }
    NoneArmed(t);
    forall f | f in t.fibers ensures t.fibers[f].state == SUSPENDED &&
      (t.fibers[f].source == Anyone || t.fibers[f].source == Monitor) {
      assert PlaceOk(t, f);
      assert t.ready[t.fibers[f].home] == [];
      assert Parked(t, f, t.fibers[f].source);
    }
  }

  lemma NoneArmed(t: State)
    requires DescriptorsOk(t) && t.armedWaiters == 0
    ensures t.armed == {} && forall f {:trigger Tagged(t, f)} :: !Tagged(t, f)
  {
    if t.pollerActive {
      var w :| 0 <= w < |t.pcs| && t.pcs[w].Polling?;
      OnlyTags(t, w);
    } else {
      forall f ensures !Tagged(t, f) {}
    }
  }

  /** A fiber's stack is on at most one worker, its home; a queued fiber is on its home's queue,
      once, and on no worker. */
  lemma OneStack(t: State, v: Worker, w: Worker)
    requires Reachable(t) && v < |t.pcs| && w < |t.pcs| && Holding(t.pcs[v])
    ensures Known(t, t.pcs[v].f) && t.fibers[t.pcs[v].f].home == v && t.pcs[v].f !in t.ready[v]
    ensures Holding(t.pcs[w]) && t.pcs[w].f == t.pcs[v].f ==> v == w
  {
    ReachableInv(t);
    WorkerAt(t, v);
    WorkerAt(t, w);
    NotQueued(t, t.pcs[v].f, v);
  }

  lemma QueuedOnce(t: State, w: Worker, i: nat, v: Worker, j: nat)
    requires Reachable(t) && w < |t.ready| && v < |t.ready| && i < |t.ready[w]| && j < |t.ready[v]| &&
      t.ready[w][i] == t.ready[v][j]
    ensures w == v && i == j && Known(t, t.ready[w][i]) && t.fibers[t.ready[w][i]].home == w &&
      t.fibers[t.ready[w][i]].state == READY
  {
    ReachableInv(t);
    hide Reachable, Pool, TimersOk, DescriptorsOk, MonitorsOk;
    assert t.fibers[t.ready[w][i]].home == w && t.fibers[t.ready[v][j]].home == v;
    var _ := t.ready[w][j];
    assert !(i < j) && !(j < i);
  }
}
