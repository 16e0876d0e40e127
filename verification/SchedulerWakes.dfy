/** No wakeup is lost: a fiber waiting for its timer, its descriptor or a signaller has that
    wake outstanding, in every reachable state. */
module SchedulerWakes {
  import opened Options
  import opened Scheduler
  import opened SchedulerInvariant

  /** f is suspended, or on its way there with no wake recorded, and src is to wake it. */
  ghost predicate Parked(s: State, f: FiberId, src: Source)
  {
    f in s.fibers && s.fibers[f].source == src &&
    (s.fibers[f].state == SUSPENDED ||
      (s.fibers[f].state == PARKING && s.fibers[f].intent == PARK_SUSPEND && !s.fibers[f].pending))
  }

  /** A poller has seen f's descriptor ready and not yet resumed f. */
  ghost predicate Tagged(s: State, f: FiberId)
  {
    exists w {:trigger s.pcs[w]} :: 0 <= w < |s.pcs| && s.pcs[w].Polling? && f in s.pcs[w].tags
  }

  ghost predicate TimersOk(s: State)
  {
    forall f {:trigger f in s.timers} {:trigger Parked(s, f, Timer)} :: f in s.timers <==> Parked(s, f, Timer)
  }

  ghost predicate DescriptorsOk(s: State)
  {
    && (forall f {:trigger f in s.armed} {:trigger Tagged(s, f)} {:trigger Parked(s, f, Descriptor)} ::
          f in s.armed || Tagged(s, f) <==> Parked(s, f, Descriptor))
    && (forall f {:trigger f in s.armed} {:trigger Tagged(s, f)} :: !(f in s.armed && Tagged(s, f)))
    && (forall v, w {:trigger s.pcs[v], s.pcs[w]} ::
      0 <= v < |s.pcs| && 0 <= w < |s.pcs| && s.pcs[v].Polling? && s.pcs[w].Polling? ==> v == w)
    && (forall w {:trigger s.pcs[w]} ::
      0 <= w < |s.pcs| && s.pcs[w].Polling? ==> s.pollerActive && s.armedWaiters == |s.armed| + |s.pcs[w].tags|)
    && (!s.pollerActive ==> s.armedWaiters == |s.armed|)
    && (s.pollerActive ==> exists w {:trigger s.pcs[w]} :: 0 <= w < |s.pcs| && s.pcs[w].Polling?)
  }

  /** f has put itself on a waiter queue and holds the stripe until it parks. */
  ghost predicate Queuing(s: State, f: FiberId)
  {
    f in s.waiters && f in s.fibers && s.fibers[f].state == RUNNING && IsHeld(s, s.waiters[f], f)
  }

  ghost predicate MonitorsOk(s: State)
  {
    && (forall f {:trigger f in s.fetched} :: f in s.fetched ==> Parked(s, f, Monitor) && f !in s.waiters)
    && (forall f {:trigger f in s.waiters} :: f in s.waiters ==> Parked(s, f, Monitor) || Queuing(s, f))
    && (forall f {:trigger Parked(s, f, Monitor)} :: Parked(s, f, Monitor) ==> f in s.waiters || f in s.fetched)
    && (forall st {:trigger st in s.holder} ::
      st in s.holder ==> s.holder[st] in s.fibers && s.fibers[s.holder[st]].state == RUNNING)
    && (forall a, b {:trigger s.holder[a], s.holder[b]} ::
      a in s.holder && b in s.holder && s.holder[a] == s.holder[b] ==> a == b)
  }

  // ----- what each step does to the parked fibers -----

  /** The source a parking act registers with. */
  function Registers(act: Act): Option<Source>
  {
    match act
    case Suspend => Some(Anyone)
    case Sleep(_) => Some(Timer)
    case WaitFd => Some(Descriptor)
    case ParkOnStripe(_) => Some(Monitor)
    case _ => None
  }

  function Resumes(act: Act): Option<FiberId>
  {
    match act
    case ResumeFetched(f) => Some(f)
    case ResumeOther(f) => Some(f)
    case _ => None
  }

  ghost predicate ParkedAfter(s: State, me: FiberId, act: Act, g: FiberId, src: Source)
  {
    || (g == me && Registers(act) == Some(src))
    || (act == SpawnSuspended(g) && src == Anyone)
    || (Parked(s, g, src) && Resumes(act) != Some(g))
  }

  lemma ResumeEffect(s: State, f: FiberId)
    requires f in s.fibers ==> Known(s, f)
    ensures forall g, src {:trigger Parked(Resume(s, f), g, src)} ::
      Parked(Resume(s, f), g, src) <==> Parked(s, g, src) && g != f
  {
    hide Notify, SameRest, MakeReady;
  }

  lemma ParkEffect(s: State, w: Worker, intent: ParkIntent, source: Source)
    requires w < |s.pcs| && s.pcs[w].OnFiber? && s.pcs[w].f in s.fibers && s.fibers[s.pcs[w].f].state == RUNNING
    ensures forall g, src {:trigger Parked(Park(s, w, intent, source), g, src)} ::
      Parked(Park(s, w, intent, source), g, src) <==>
        Parked(s, g, src) || (g == s.pcs[w].f && intent == PARK_SUSPEND && src == source)
  {}

  lemma SameEffect(s: State, t: State)
    requires t.fibers == s.fibers
    ensures forall g, src {:trigger Parked(t, g, src)} :: Parked(t, g, src) <==> Parked(s, g, src)
  {}

  lemma ParkActEffect(s: State, w: Worker, act: Act)
    requires Core(s) && Enabled(s, ByFiber(w, act)) && (act.Yield? || Registers(act).Some?)
    ensures forall g, src {:trigger Parked(DoAct(s, w, act), g, src)} ::
      Parked(DoAct(s, w, act), g, src) <==> ParkedAfter(s, s.pcs[w].f, act, g, src)
  {
    WorkerAt(s, w);
    hide Core, Park;
    var me := s.pcs[w].f;
    match act
    case Yield => ParkEffect(s, w, PARK_YIELD, Anyone);
    case Suspend => ParkEffect(s, w, PARK_SUSPEND, Anyone);
    case Sleep(deadline) => ParkEffect(s.(timers := s.timers[me := deadline]), w, PARK_SUSPEND, Timer);
    case WaitFd => ParkEffect(s.(armed := s.armed + {me}, armedWaiters := s.armedWaiters + 1), w, PARK_SUSPEND,
      Descriptor);
    case ParkOnStripe(st) => ParkEffect(s.(holder := s.holder - {st}), w, PARK_SUSPEND, Monitor);
  }

  lemma ActEffect(s: State, w: Worker, act: Act)
    requires Core(s) && Enabled(s, ByFiber(w, act))
    ensures forall g, src {:trigger Parked(DoAct(s, w, act), g, src)} ::
      Parked(DoAct(s, w, act), g, src) <==> ParkedAfter(s, s.pcs[w].f, act, g, src)
  {
    WorkerAt(s, w);
    if act.Yield? || Registers(act).Some? {
      ParkActEffect(s, w, act);
    } else {
      hide Core, Resume, Push, HoldsNone;
      match act
      case ResumeFetched(f) => ResumeEffect(s.(fetched := s.fetched - {f}), f);
      case ResumeOther(f) => ResumeEffect(s, f);
      case SpawnReady(f) => SpawnEffect(s, f);
      case _ =>
    }
  }

  lemma SpawnEffect(s: State, f: FiberId)
    requires Fresh(s, f) && s.nextHome < |s.ready|
    ensures forall g, src {:trigger Parked(Push(Register(s, f, READY), f), g, src)} ::
      Parked(Push(Register(s, f, READY), f), g, src) <==> Parked(s, g, src)
  {
    hide Notify, SameRest;
  }

  lemma CommittedFibers(s: State, w: Worker, f: FiberId)
    requires w < |s.pcs| && Known(s, f) && s.runningCount > 0
    ensures CommitFiber(s, w, f).fibers ==
      if s.fibers[f].state == DONE then s.fibers - {f}
      else s.fibers[f := s.fibers[f].(intent := PARK_NONE, pending := false, state :=
        if s.fibers[f].intent == PARK_YIELD || s.fibers[f].pending then READY else SUSPENDED)]
  {
    hide Notify, SameRest, MakeReady;
  }

  lemma CommitEffect(s: State, w: Worker)
    requires Core(s) && w < |s.pcs| && s.pcs[w].Committing? && Known(s, s.pcs[w].f) && s.runningCount > 0
    ensures forall g, src {:trigger Parked(CommitFiber(s, w, s.pcs[w].f), g, src)} ::
      Parked(CommitFiber(s, w, s.pcs[w].f), g, src) <==> Parked(s, g, src)
  {
    var f := s.pcs[w].f;
    assert WorkerOk(s, w) && PlaceOk(s, f);
    hide Core, Notify, SameRest, MakeReady;
    var t := CommitFiber(s, w, f);
    CommittedFibers(s, w, f);
    forall g, src ensures Parked(t, g, src) <==> Parked(s, g, src) {}
  }

  lemma OpEffect(s: State, w: Worker, op: Op)
    requires Core(s) && Enabled(s, ByWorker(w, op))
    ensures forall g, src {:trigger Parked(DoOp(s, w, op), g, src)} ::
      Parked(DoOp(s, w, op), g, src) <==> Parked(s, g, src) && op != Deliver(g) && op != Expire(g)
  {
    WorkerAt(s, w);
    hide Queues, Workers, Places, Core, Resume, CommitFiber, Notify;
    match op
    case Commit => CommitEffect(s, w);
    case Deliver(f) => ResumeEffect(Taken(s, w, f), f);
    case Expire(f) => ResumeEffect(s.(timers := s.timers - {f}), f);
    case Run =>
    case _ => SameEffect(s, DoOp(s, w, op));
  }

  // ----- timers -----

  lemma ActTimers(s: State, w: Worker, act: Act)
    requires Enabled(s, ByFiber(w, act))
    ensures DoAct(s, w, act).timers == if act.Sleep? then s.timers[s.pcs[w].f := act.deadline] else s.timers
  {
    hide HoldsNone, Resume, Push, Notify;
  }

  lemma ActKeepsTimers(s: State, w: Worker, act: Act)
    requires Core(s) && TimersOk(s) && MonitorsOk(s) && Enabled(s, ByFiber(w, act))
    ensures TimersOk(DoAct(s, w, act))
  {
    ActEffect(s, w, act);
    ActTimers(s, w, act);
    if Resumes(act).Some? { OneSource(s, Resumes(act).value); }
    hide Core, Parked, HoldsNone, DoAct;
    var t := DoAct(s, w, act);
    forall f ensures f in t.timers <==> Parked(t, f, Timer) {
      assert f in s.timers <==> Parked(s, f, Timer);
    }
  }

  lemma OneSource(s: State, f: FiberId)
    ensures forall a, b :: Parked(s, f, a) && Parked(s, f, b) ==> a == b
    ensures FreeToResume(s, f) ==> forall a {:trigger Parked(s, f, a)} :: Parked(s, f, a) ==> a == Anyone
  {}

  lemma OpKeepsTimers(s: State, w: Worker, op: Op)
    requires Core(s) && TimersOk(s) && DescriptorsOk(s) && Enabled(s, ByWorker(w, op))
    ensures TimersOk(DoOp(s, w, op))
  {
    OpEffect(s, w, op);
    if op.Deliver? { OneSource(s, op.f); assert Tagged(s, op.f); assert Parked(s, op.f, Descriptor); }
    hide Core, Parked, Notify, CommitFiber, DescriptorsOk, Resume;
    var t := DoOp(s, w, op);
    forall f ensures f in t.timers <==> Parked(t, f, Timer) {
      assert f in s.timers <==> Parked(s, f, Timer);
    }
  }

  // ----- descriptors -----

  ghost predicate SameTags(a: Pc, b: Pc)
  {
    (a.Polling? <==> b.Polling?) && (a.Polling? ==> a.tags == b.tags)
  }

  /** Polling workers are where they were, with the tags they had. */
  ghost predicate PollSame(s: State, t: State)
  {
    |s.pcs| == |t.pcs| &&
    forall w {:trigger s.pcs[w]} {:trigger t.pcs[w]} :: 0 <= w < |s.pcs| ==> SameTags(s.pcs[w], t.pcs[w])
  }

  lemma TaggedSame(s: State, t: State)
    requires PollSame(s, t)
    ensures forall f {:trigger Tagged(s, f)} {:trigger Tagged(t, f)} :: Tagged(s, f) <==> Tagged(t, f)
  {
    forall f ensures Tagged(s, f) <==> Tagged(t, f) {
      if Tagged(s, f) { var w :| 0 <= w < |s.pcs| && s.pcs[w].Polling? && f in s.pcs[w].tags;
        assert SameTags(s.pcs[w], t.pcs[w]); }
      if Tagged(t, f) { var w :| 0 <= w < |t.pcs| && t.pcs[w].Polling? && f in t.pcs[w].tags;
        assert SameTags(s.pcs[w], t.pcs[w]); }
    }
  }

  lemma DescriptorsSame(s: State, t: State)
    requires DescriptorsOk(s) && PollSame(s, t) && t.armed == s.armed && t.armedWaiters == s.armedWaiters &&
      t.pollerActive == s.pollerActive
    requires forall f {:trigger Parked(t, f, Descriptor)} :: Parked(t, f, Descriptor) <==> Parked(s, f, Descriptor)
    ensures DescriptorsOk(t)
  {
    TaggedSame(s, t);
    hide Parked, Tagged;
    forall f ensures f in t.armed || Tagged(t, f) <==> Parked(t, f, Descriptor)
      { assert f in s.armed || Tagged(s, f) <==> Parked(s, f, Descriptor); }
    forall f ensures !(f in t.armed && Tagged(t, f)) { assert !(f in s.armed && Tagged(s, f)); }
    if t.pollerActive { var w :| 0 <= w < |s.pcs| && s.pcs[w].Polling?; assert t.pcs[w].Polling?; }
  }

  lemma DescriptorsArmed(s: State, t: State, f: FiberId)
    requires DescriptorsOk(s) && PollSame(s, t) && t.armed == s.armed + {f} && t.armedWaiters == s.armedWaiters + 1 &&
      t.pollerActive == s.pollerActive
    requires !Parked(s, f, Descriptor)
    requires forall g {:trigger Parked(t, g, Descriptor)} ::
      Parked(t, g, Descriptor) <==> Parked(s, g, Descriptor) || g == f
    ensures DescriptorsOk(t)
  {
    TaggedSame(s, t);
    hide Parked, Tagged;
    assert f !in s.armed && !Tagged(s, f);
    assert |t.armed| == |s.armed| + 1;
    forall g ensures g in t.armed || Tagged(t, g) <==> Parked(t, g, Descriptor)
      { assert g in s.armed || Tagged(s, g) <==> Parked(s, g, Descriptor); }
    forall g ensures !(g in t.armed && Tagged(t, g)) { assert !(g in s.armed && Tagged(s, g)); }
    if t.pollerActive { var w :| 0 <= w < |s.pcs| && s.pcs[w].Polling?; assert t.pcs[w].Polling?; }
  }

  lemma ActPollSame(s: State, w: Worker, act: Act)
    requires Enabled(s, ByFiber(w, act))
    ensures PollSame(s, DoAct(s, w, act))
    ensures DoAct(s, w, act).pollerActive == s.pollerActive && DoAct(s, w, act).shutdown == s.shutdown &&
      DoAct(s, w, act).runningCount == s.runningCount
    ensures !act.WaitFd? ==> DoAct(s, w, act).armed == s.armed && DoAct(s, w, act).armedWaiters == s.armedWaiters
  {
    hide Resume, Push, HoldsNone;
  }

  lemma ActKeepsDescriptors(s: State, w: Worker, act: Act)
    requires Core(s) && DescriptorsOk(s) && MonitorsOk(s) && Enabled(s, ByFiber(w, act))
    ensures DescriptorsOk(DoAct(s, w, act))
  {
    ActEffect(s, w, act);
    ActPollSame(s, w, act);
    var t, me := DoAct(s, w, act), s.pcs[w].f;
    if Resumes(act).Some? { OneSource(s, Resumes(act).value); }
    WorkerAt(s, w);
    assert !Parked(s, me, Descriptor);
    assert act.ResumeFetched? ==> Parked(s, act.f, Monitor);
    hide Core, Notify, HoldsNone, MonitorsOk, DescriptorsOk, PollSame, WorkerOk;
    if act.WaitFd? {
      DescriptorsArmed(s, t, me);
    } else {
      DescriptorsSame(s, t);
    }
  }

  /** The poller is the only one, so its tags are all the tags. */
  lemma OnlyTags(s: State, w: Worker)
    requires DescriptorsOk(s) && w < |s.pcs| && s.pcs[w].Polling?
    ensures forall f {:trigger Tagged(s, f)} :: Tagged(s, f) <==> f in s.pcs[w].tags
  {}

  ghost predicate Retagged(s: State, t: State, w: Worker, tags: set<FiberId>)
  {
    && |s.pcs| == |t.pcs| && w < |s.pcs| && s.pcs[w].Polling? && t.pcs[w].Polling? && t.pcs[w].tags == tags
    && forall v {:trigger t.pcs[v]} :: 0 <= v < |s.pcs| && v != w ==> SameTags(s.pcs[v], t.pcs[v])
  }

  /** The poller takes f from the armed, or lets a tagged f go. */
  lemma DescriptorsRetagged(s: State, t: State, w: Worker, f: FiberId, tags: set<FiberId>)
    requires DescriptorsOk(s) && Retagged(s, t, w, tags) && t.pollerActive == s.pollerActive
    requires (f in s.armed && tags == s.pcs[w].tags + {f} && t.armed == s.armed - {f} &&
      t.armedWaiters == s.armedWaiters
              && forall g {:trigger Parked(t, g, Descriptor)} :: Parked(t, g, Descriptor) <==> Parked(s, g, Descriptor))
          || (f in s.pcs[w].tags && tags == s.pcs[w].tags - {f} && t.armed == s.armed &&
            t.armedWaiters == s.armedWaiters - 1
              && forall g {:trigger Parked(t, g, Descriptor)} ::
                Parked(t, g, Descriptor) <==> Parked(s, g, Descriptor) && g != f)
    ensures DescriptorsOk(t)
  {
    OnlyTags(s, w);
    hide Parked;
    assert f in s.armed ==> f !in s.pcs[w].tags;
    forall v | 0 <= v < |t.pcs| && t.pcs[v].Polling? ensures v == w { var _ := s.pcs[v]; }
    forall g ensures Tagged(t, g) <==> g in tags { var _ := t.pcs[w]; }
    forall g ensures g in t.armed || Tagged(t, g) <==> Parked(t, g, Descriptor)
      { assert g in s.armed || Tagged(s, g) <==> Parked(s, g, Descriptor); }
    forall g ensures !(g in t.armed && Tagged(t, g)) { assert !(g in s.armed && Tagged(s, g)); }
    if f in s.armed {
      assert |t.armed| + 1 == |s.armed| && |tags| == |s.pcs[w].tags| + 1;
    } else {
      assert |tags| + 1 == |s.pcs[w].tags|;
    }
  }

  lemma SleeperOnly(s: State, f: FiberId)
    requires TimersOk(s) && f in s.timers
    ensures !Parked(s, f, Descriptor)
  {
    assert Parked(s, f, Timer);
  }

  lemma ReportRetags(s: State, w: Worker, f: FiberId)
    requires Enabled(s, ByWorker(w, Report(f)))
    ensures var t := DoOp(s, w, Report(f));
      Retagged(s, t, w, s.pcs[w].tags + {f}) && t.pollerActive == s.pollerActive && t.armed == s.armed - {f} &&
      t.armedWaiters == s.armedWaiters
  {}

  lemma DeliverRetags(s: State, w: Worker, f: FiberId)
    requires Enabled(s, ByWorker(w, Deliver(f))) && s.armedWaiters > 0
    ensures var t := DoOp(s, w, Deliver(f));
      Retagged(s, t, w, s.pcs[w].tags - {f}) && t.pollerActive == s.pollerActive && t.armed == s.armed &&
      t.armedWaiters == s.armedWaiters - 1
  {
    hide Resume;
  }

  lemma OpKeepsDescriptors(s: State, w: Worker, op: Op)
    requires Core(s) && DescriptorsOk(s) && TimersOk(s) && Enabled(s, ByWorker(w, op))
    ensures DescriptorsOk(DoOp(s, w, op))
  {
    OpEffect(s, w, op);
    var t := DoOp(s, w, op);
    if op.BecomePoller? {
      PollerStarts(s, t, w);
    } else if op.Report? {
      ReportRetags(s, w, op.f);
      hide Core, Parked, DescriptorsOk, DoOp, Retagged;
      DescriptorsRetagged(s, t, w, op.f, s.pcs[w].tags + {op.f});
    } else if op.Deliver? {
      assert s.armedWaiters == |s.armed| + |s.pcs[w].tags| && |s.pcs[w].tags| > 0;
      DeliverRetags(s, w, op.f);
      hide Core, Parked, DescriptorsOk, DoOp, Retagged;
      DescriptorsRetagged(s, t, w, op.f, s.pcs[w].tags - {op.f});
    } else if op.PollDone? {
      PollerStops(s, t, w);
    } else {
      OpPollSame(s, w, op);
      if op.Expire? { SleeperOnly(s, op.f); }
      hide Core, Parked, DescriptorsOk, PollSame, DoOp, OpEnabled;
      DescriptorsSame(s, t);
    }
  }

  lemma OpPollSame(s: State, w: Worker, op: Op)
    requires Enabled(s, ByWorker(w, op)) && !op.BecomePoller? && !op.Report? && !op.Deliver? && !op.PollDone?
    ensures PollSame(s, DoOp(s, w, op))
    ensures DoOp(s, w, op).pollerActive == s.pollerActive && DoOp(s, w, op).armed == s.armed &&
      DoOp(s, w, op).armedWaiters == s.armedWaiters
  {
    hide Resume, CommitFiber, AllQueuesEmpty;
  }

  lemma PollerStarts(s: State, t: State, w: Worker)
    requires DescriptorsOk(s) && w < |s.pcs| && !s.pollerActive &&
      t == SetPc(s.(pollerActive := true), w, Polling({}, Entering))
    ensures DescriptorsOk(t)
  {
    assert t.pcs[w].Polling?;
    forall g ensures !Tagged(s, g) && !Tagged(t, g) {}
    forall g ensures g in t.armed || Tagged(t, g) <==> Parked(t, g, Descriptor)
      { assert g in s.armed || Tagged(s, g) <==> Parked(s, g, Descriptor); }
  }

  lemma PollerStops(s: State, t: State, w: Worker)
    requires DescriptorsOk(s) && w < |s.pcs| && s.pcs[w].Polling? && s.pcs[w].tags == {} &&
      t == Broadcast(SetPc(s.(pollerActive := false), w, Loop))
    ensures DescriptorsOk(t)
  {
    OnlyTags(s, w);
    forall v | 0 <= v < |t.pcs| ensures !t.pcs[v].Polling? { var _ := s.pcs[v]; }
    forall g ensures !Tagged(s, g) && !Tagged(t, g) {}
    forall g ensures g in t.armed || Tagged(t, g) <==> Parked(t, g, Descriptor)
      { assert g in s.armed || Tagged(s, g) <==> Parked(s, g, Descriptor); }
  }

  // ----- monitors -----

  ghost predicate IsRunning(s: State, f: FiberId)
  {
    f in s.fibers && s.fibers[f].state == RUNNING
  }

  ghost predicate Leaves(act: Act)
  {
    act.Yield? || act.Suspend? || act.Sleep? || act.WaitFd? || act.ParkOnStripe? || act.Finish?
  }

  lemma LeavingRunning(s: State, w: Worker, act: Act)
    requires Core(s) && Enabled(s, ByFiber(w, act)) && Leaves(act)
    ensures IsRunning(s, s.pcs[w].f)
    ensures forall g {:trigger IsRunning(DoAct(s, w, act), g)} ::
      IsRunning(DoAct(s, w, act), g) <==> IsRunning(s, g) && g != s.pcs[w].f
  {
    WorkerAt(s, w);
    hide Core, Notify, HoldsNone, SameRest, Resume, Push;
  }

  lemma ResumeRunning(s: State, f: FiberId)
    requires f in s.fibers ==> s.fibers[f].home < |s.ready|
    ensures forall g {:trigger IsRunning(Resume(s, f), g)} :: IsRunning(Resume(s, f), g) <==> IsRunning(s, g)
  {
    hide Notify, SameRest;
  }

  lemma SpawnRunning(s: State, f: FiberId, state: FiberState)
    requires f !in s.fibers && state != RUNNING
    ensures forall g {:trigger IsRunning(Register(s, f, state), g)} ::
      IsRunning(Register(s, f, state), g) <==> IsRunning(s, g)
  {
  }

  lemma FibersRunning(s: State, t: State)
    requires t.fibers == s.fibers
    ensures forall g {:trigger IsRunning(t, g)} :: IsRunning(t, g) <==> IsRunning(s, g)
  {
  }

  lemma StayingRunning(s: State, w: Worker, act: Act)
    requires Core(s) && Enabled(s, ByFiber(w, act)) && !Leaves(act)
    ensures IsRunning(s, s.pcs[w].f)
    ensures forall g {:trigger IsRunning(DoAct(s, w, act), g)} :: IsRunning(DoAct(s, w, act), g) <==> IsRunning(s, g)
  {
    WorkerAt(s, w);
    hide Core, Notify, HoldsNone, Park, Resume, Register, Push;
    var t := DoAct(s, w, act);
    match act
    case ResumeFetched(f) =>
      var u := s.(fetched := s.fetched - {f});
      ResumeRunning(u, f);
      FibersRunning(s, u);
    case ResumeOther(f) => ResumeRunning(s, f);
    case SpawnReady(f) =>
      SpawnRunning(s, f, READY);
      FibersRunning(Register(s, f, READY), t);
    case SpawnSuspended(f) => SpawnRunning(s, f, SUSPENDED);
    case _ => FibersRunning(s, t);
  }

  lemma ActRunning(s: State, w: Worker, act: Act)
    requires Core(s) && Enabled(s, ByFiber(w, act))
    ensures IsRunning(s, s.pcs[w].f)
    ensures forall g {:trigger IsRunning(DoAct(s, w, act), g)} ::
      IsRunning(DoAct(s, w, act), g) <==> IsRunning(s, g) && !(g == s.pcs[w].f && Leaves(act))
  {
    hide Core, DoAct, ActEnabled, IsRunning;
    if Leaves(act) { LeavingRunning(s, w, act); } else { StayingRunning(s, w, act); }
  }

  lemma QueueRunning(s: State, w: Worker, op: Op)
    requires Core(s) && Enabled(s, ByWorker(w, op)) && (op.Pop? || op.Run? || op.SwitchOff? || op.Commit?)
    ensures forall g {:trigger IsRunning(DoOp(s, w, op), g)} ::
      IsRunning(DoOp(s, w, op), g) <==> IsRunning(s, g) || (op.Run? && g == s.pcs[w].f)
  {
    WorkerAt(s, w);
    if op.Commit? { CommittedFibers(s, w, s.pcs[w].f); }
    hide Core, Notify, CommitFiber, SameRest, AllQueuesEmpty, Resume, Broadcast;
  }

  lemma PollRunning(s: State, w: Worker, op: Op)
    requires Core(s) && Enabled(s, ByWorker(w, op)) && !(op.Pop? || op.Run? || op.SwitchOff? || op.Commit?)
    ensures forall g {:trigger IsRunning(DoOp(s, w, op), g)} :: IsRunning(DoOp(s, w, op), g) <==> IsRunning(s, g)
  {
    hide Core, Notify, CommitFiber, AllQueuesEmpty, PopFiber, RunFiber, Resume;
    var t := DoOp(s, w, op);
    match op
    case Deliver(f) =>
      var u := Taken(s, w, f);
      ResumeRunning(u, f);
      FibersRunning(s, u);
    case Expire(f) =>
      var u := s.(timers := s.timers - {f});
      ResumeRunning(u, f);
      FibersRunning(s, u);
    case _ => FibersRunning(s, t);
  }

  lemma OpRunning(s: State, w: Worker, op: Op)
    requires Core(s) && Enabled(s, ByWorker(w, op))
    ensures forall g {:trigger IsRunning(DoOp(s, w, op), g)} ::
      IsRunning(DoOp(s, w, op), g) <==> IsRunning(s, g) || (op.Run? && g == s.pcs[w].f)
  {
    hide Core, DoOp, OpEnabled, IsRunning;
    if op.Pop? || op.Run? || op.SwitchOff? || op.Commit? { QueueRunning(s, w, op); } else { PollRunning(s, w, op); }
  }

  ghost function HolderAfter(s: State, me: FiberId, act: Act): map<Stripe, FiberId>
  {
    match act
    case StripeEnter(st) => s.holder[st := me]
    case StripeExit(st) => s.holder - {st}
    case ParkOnStripe(st) => s.holder - {st}
    case _ => s.holder
  }

  /** The fibers' side of an act: who is parked on a monitor, and who runs. */
  ghost predicate Acted(s: State, t: State, me: FiberId, act: Act)
  {
    && (forall g {:trigger Parked(t, g, Monitor)} :: Parked(t, g, Monitor) <==> ParkedAfter(s, me, act, g, Monitor))
    && (forall g {:trigger IsRunning(t, g)} :: IsRunning(t, g) <==> IsRunning(s, g) && !(g == me && Leaves(act)))
    && t.holder == HolderAfter(s, me, act)
  }

  lemma StripesFrom(s: State, t: State, me: FiberId, act: Act)
    requires MonitorsOk(s) && IsRunning(s, me) && ActEnabled(s, me, act) && Acted(s, t, me, act)
    ensures forall st {:trigger st in t.holder} :: st in t.holder ==> IsRunning(t, t.holder[st])
    ensures forall a, b {:trigger t.holder[a], t.holder[b]} ::
      a in t.holder && b in t.holder && t.holder[a] == t.holder[b] ==> a == b
  {
    hide Parked, ParkedAfter;
    forall st | st in t.holder ensures IsRunning(t, t.holder[st]) {
      if st in s.holder { assert IsRunning(s, s.holder[st]); }
      if act.ParkOnStripe? { var _ := s.holder[act.stripe]; var _ := s.holder[st]; }
    }
  }

  lemma WaitersFrom(s: State, t: State, me: FiberId, act: Act)
    requires MonitorsOk(s) && IsRunning(s, me) && ActEnabled(s, me, act) && Acted(s, t, me, act)
    requires t.waiters == match act
      { case Enqueue(st) => s.waiters[me := st] case Fetch(_, f) => s.waiters - {f} case _ => s.waiters }
    ensures forall f {:trigger f in t.waiters} :: f in t.waiters ==> Parked(t, f, Monitor) || Queuing(t, f)
  {
    assert !Parked(s, me, Monitor);
    if Resumes(act).Some? { OneSource(s, Resumes(act).value); }
    hide Parked;
    forall f | f in t.waiters ensures Parked(t, f, Monitor) || Queuing(t, f) {
      assert IsRunning(t, f) == (IsRunning(s, f) && !(f == me && Leaves(act)));
      if f in s.waiters {
        assert Parked(s, f, Monitor) || Queuing(s, f);
      }
    }
  }

  lemma MonitorsFrom(s: State, t: State, me: FiberId, act: Act)
    requires MonitorsOk(s) && IsRunning(s, me) && ActEnabled(s, me, act) && Acted(s, t, me, act)
    requires t.waiters == match act
      { case Enqueue(st) => s.waiters[me := st] case Fetch(_, f) => s.waiters - {f} case _ => s.waiters }
    requires t.fetched == match act
      { case Fetch(_, f) => s.fetched[f := me] case ResumeFetched(f) => s.fetched - {f} case _ => s.fetched }
    ensures MonitorsOk(t)
  {
    StripesFrom(s, t, me, act);
    WaitersFrom(s, t, me, act);
    assert !Parked(s, me, Monitor);
    if Resumes(act).Some? { OneSource(s, Resumes(act).value); }
    hide Parked, HolderAfter, HoldsNone;
  }

  lemma ActTables(s: State, w: Worker, act: Act)
    requires Core(s) && Enabled(s, ByFiber(w, act))
    ensures var me, t := s.pcs[w].f, DoAct(s, w, act);
      && t.waiters == (match act { case Enqueue(st) => s.waiters[me := st] case Fetch(_, f) => s.waiters - {f} case _ =>
        s.waiters })
      && t.fetched == (match act { case Fetch(_, f) => s.fetched[f := me] case ResumeFetched(f) =>
        s.fetched - {f} case _ => s.fetched })
      && t.holder == HolderAfter(s, me, act)
  {
    WorkerAt(s, w);
    hide Core, Notify, HoldsNone, Resume, Push, MakeReady;
  }

  lemma ActKeepsMonitors(s: State, w: Worker, act: Act)
    requires Core(s) && MonitorsOk(s) && Enabled(s, ByFiber(w, act))
    ensures MonitorsOk(DoAct(s, w, act))
  {
    hide Core, MonitorsOk, Parked, IsRunning, ParkedAfter, Leaves, DoAct, HolderAfter;
    ActEffect(s, w, act);
    ActRunning(s, w, act);
    ActTables(s, w, act);
    MonitorsFrom(s, DoAct(s, w, act), s.pcs[w].f, act);
  }

  lemma OpKeepsMonitors(s: State, w: Worker, op: Op)
    requires Core(s) && MonitorsOk(s) && TimersOk(s) && DescriptorsOk(s) && Enabled(s, ByWorker(w, op))
    ensures MonitorsOk(DoOp(s, w, op))
  {
    OpEffect(s, w, op);
    OpRunning(s, w, op);
    var t := DoOp(s, w, op);
    if op.Deliver? { OneSource(s, op.f); assert Tagged(s, op.f); assert Parked(s, op.f, Descriptor); }
    if op.Expire? { OneSource(s, op.f); assert Parked(s, op.f, Timer); }
    assert t.holder == s.holder && t.waiters == s.waiters && t.fetched == s.fetched by
      { hide Resume, CommitFiber, Core, AllQueuesEmpty; }
    hide Core, DescriptorsOk, TimersOk, MonitorsOk, DoOp, OpEnabled, Parked, IsRunning;
    MonitorsSame(s, t);
  }

  lemma MonitorsSame(s: State, t: State)
    requires MonitorsOk(s) && t.holder == s.holder && t.waiters == s.waiters && t.fetched == s.fetched
    requires forall f {:trigger Parked(t, f, Monitor)} :: Parked(t, f, Monitor) <==> Parked(s, f, Monitor)
    requires forall f {:trigger IsRunning(t, f)} :: IsRunning(s, f) ==> IsRunning(t, f)
    ensures MonitorsOk(t)
  {
    hide Parked;
    forall f | f in t.waiters ensures Parked(t, f, Monitor) || Queuing(t, f) {
      assert Parked(s, f, Monitor) || Queuing(s, f);
      assert IsRunning(s, f) ==> IsRunning(t, f);
    }
    forall st | st in t.holder ensures IsRunning(t, t.holder[st]) {
      assert IsRunning(s, s.holder[st]);
    }
  }
}
