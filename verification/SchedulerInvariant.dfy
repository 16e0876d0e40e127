/** What every step of the scheduler keeps. */
module SchedulerInvariant {
  import opened Scheduler

  predicate Holding(pc: Pc)
  {
    pc.Popped? || pc.OnFiber? || pc.Leaving? || pc.Committing?
  }

  ghost predicate Shape(s: State)
  {
    && 0 < |s.pcs| == |s.ready| && s.nextHome < |s.pcs|
    && forall f {:trigger s.fibers[f]} :: f in s.fibers ==> s.fibers[f].home < |s.pcs|
  }

  /** Queue w holds ready fibers at home on w, each once. */
  ghost predicate Queues(s: State)
    requires Shape(s)
  {
    && (forall w, i {:trigger s.ready[w][i]} :: 0 <= w < |s.ready| && 0 <= i < |s.ready[w]| ==>
          var f := s.ready[w][i]; f in s.fibers && s.fibers[f].home == w && s.fibers[f].state == READY)
    && (forall w, i, j {:trigger s.ready[w][i], s.ready[w][j]} ::
      0 <= w < |s.ready| && 0 <= i < j < |s.ready[w]| ==> s.ready[w][i] != s.ready[w][j])
  }

  ghost predicate WorkerOk(s: State, w: Worker)
    requires Shape(s) && w < |s.pcs|
  {
    Holding(s.pcs[w]) ==>
      var f := s.pcs[w].f;
      && f in s.fibers && s.fibers[f].home == w
      && (s.pcs[w].Popped? ==> s.fibers[f].state == READY && f !in s.ready[w])
      && (s.pcs[w].OnFiber? ==> s.fibers[f].state == RUNNING)
      && (s.pcs[w].Leaving? || s.pcs[w].Committing? ==> s.fibers[f].state == PARKING || s.fibers[f].state == DONE)
  }

  ghost predicate Workers(s: State)
    requires Shape(s)
  {
    forall w: nat {:trigger s.pcs[w]} :: w < |s.pcs| ==> WorkerOk(s, w)
  }

  /** A fiber's state says where it is. */
  ghost predicate PlaceOk(s: State, f: FiberId)
    requires Shape(s) && f in s.fibers
  {
    var w := s.fibers[f].home;
    match s.fibers[f].state
    case READY => f in s.ready[w] || s.pcs[w] == Popped(f)
    case RUNNING => s.pcs[w] == OnFiber(f)
    case PARKING => (s.pcs[w] == Leaving(f) || s.pcs[w] == Committing(f)) && s.fibers[f].intent != PARK_NONE
    case DONE => s.pcs[w] == Leaving(f) || s.pcs[w] == Committing(f)
    case SUSPENDED => true
  }

  ghost predicate Places(s: State)
    requires Shape(s)
  {
    forall f {:trigger s.fibers[f]} :: f in s.fibers ==> PlaceOk(s, f)
  }

  /** The protocol's core: which stack is where. */
  ghost predicate Core(s: State)
  {
    Shape(s) && Queues(s) && Workers(s) && Places(s)
  }

  // ----- how the core survives each kind of change -----

  lemma NotifyKeeps(s: State)
    requires Core(s)
    ensures Core(Broadcast(s))
  {
    var t := Broadcast(s);
    forall w: nat | w < |t.pcs| ensures WorkerOk(t, w) { assert WorkerOk(s, w); }
    forall f | f in t.fibers ensures PlaceOk(t, f) { assert PlaceOk(s, f); var _ := t.pcs[s.fibers[f].home]; }
  }

  /** A worker that holds no fiber moves to a place where it holds none. */
  lemma IdleMoveKeeps(s: State, w: Worker, pc: Pc)
    requires Core(s) && w < |s.pcs| && !Holding(s.pcs[w]) && !Holding(pc)
    ensures Core(SetPc(s, w, pc))
  {
    var t := SetPc(s, w, pc);
    forall v: nat | v < |t.pcs| ensures WorkerOk(t, v) { assert WorkerOk(s, v); }
    forall f | f in t.fibers ensures PlaceOk(t, f) { assert PlaceOk(s, f); }
  }

  /** The fiber on worker w, running, leaving or being committed, changes with the worker's
      place; it is on no queue. */
  lemma HeldMoveKeeps(s: State, w: Worker, f: FiberId, x: Fiber, pc: Pc)
    requires Core(s) && w < |s.pcs| && Holding(s.pcs[w]) && s.pcs[w].f == f && Holding(pc) && pc.f == f && f in s.fibers
    requires x.home == s.fibers[f].home
    requires pc.OnFiber? ==> x.state == RUNNING
    requires pc.Leaving? || pc.Committing? ==> x.state == PARKING || x.state == DONE
    requires !pc.Popped? && (x.state == PARKING ==> x.intent != PARK_NONE)
    ensures Core(SetPc(SetFiber(s, f, x), w, pc))
  {
    var t := SetPc(SetFiber(s, f, x), w, pc);
    assert WorkerOk(s, w);
    NotQueued(s, f, w);
    forall v: nat | v < |t.pcs| ensures WorkerOk(t, v) { assert WorkerOk(s, v); }
    forall g | g in t.fibers ensures PlaceOk(t, g) { if g in s.fibers { assert PlaceOk(s, g); } }
  }

  lemma NotQueued(s: State, f: FiberId, w: Worker)
    requires Core(s) && w < |s.pcs| && Holding(s.pcs[w]) && s.pcs[w].f == f
    ensures forall v, i {:trigger s.ready[v][i]} :: 0 <= v < |s.ready| && 0 <= i < |s.ready[v]| ==> s.ready[v][i] != f
  {
    assert WorkerOk(s, w);
  }

  /** A suspended fiber, held by no one, becomes ready. */
  lemma ReadyKeeps(s: State, f: FiberId)
    requires Core(s) && f in s.fibers && s.fibers[f].state == SUSPENDED
    ensures Core(MakeReady(s, f))
  {
    var t := SetFiber(s, f, s.fibers[f].(state := READY, pending := false));
    var u := t.(ready := t.ready[t.fibers[f].home := t.ready[t.fibers[f].home] + [f]], kicked :=
      t.kicked || t.pollerActive);
    assert Core(u) by {
      forall w, i | 0 <= w < |u.ready| && 0 <= i < |u.ready[w]|
        ensures u.ready[w][i] in u.fibers && u.fibers[u.ready[w][i]].home == w && u.fibers[u.ready[w][i]].state == READY
      {
        if i < |s.ready[w]| { assert u.ready[w][i] == s.ready[w][i]; }
      }
      forall v: nat | v < |u.pcs| ensures WorkerOk(u, v) { assert WorkerOk(s, v); }
      forall g | g in u.fibers ensures PlaceOk(u, g) {
        assert PlaceOk(s, g);
        if g == f { var q := u.ready[u.fibers[f].home]; assert q[|q| - 1] == f; }
      }
    }
    NotifyKeeps(u);
  }

  lemma CoreSame(s: State, t: State)
    requires Core(s) && t.fibers == s.fibers && t.pcs == s.pcs && t.ready == s.ready && t.nextHome == s.nextHome
    ensures Core(t)
  {
    forall w: nat | w < |t.pcs| ensures WorkerOk(t, w) { assert WorkerOk(s, w); }
    forall f | f in t.fibers ensures PlaceOk(t, f) { assert PlaceOk(s, f); }
  }

  lemma PopKeeps(s: State, w: Worker)
    requires Core(s) && w < |s.pcs| && s.pcs[w].Loop? && s.ready[w] != []
    ensures Core(PopFiber(s, w))
  {
    var t := PopFiber(s, w);
    var f := s.ready[w][0];
    forall v, i | 0 <= v < |t.ready| && 0 <= i < |t.ready[v]|
      ensures t.ready[v][i] in t.fibers && t.fibers[t.ready[v][i]].home == v &&
        t.fibers[t.ready[v][i]].state == READY && t.ready[v][i] != f
    {
      if v == w { assert t.ready[v][i] == s.ready[v][i + 1]; } else { assert t.ready[v][i] == s.ready[v][i]; }
    }
    forall v, i, j | 0 <= v < |t.ready| && 0 <= i < j < |t.ready[v]| ensures t.ready[v][i] != t.ready[v][j] {
      if v == w { assert s.ready[v][i + 1] != s.ready[v][j + 1]; }
    }
    forall v: nat | v < |t.pcs| ensures WorkerOk(t, v) { assert WorkerOk(s, v); }
    forall g | g in t.fibers ensures PlaceOk(t, g) {
      assert PlaceOk(s, g);
      if g in s.ready[w] && g != f {
        var i :| 0 <= i < |s.ready[w]| && s.ready[w][i] == g;
        assert t.ready[w][i - 1] == g;
      }
    }
  }

  lemma RunKeeps(s: State, w: Worker)
    requires Core(s) && w < |s.pcs| && s.pcs[w].Popped?
    ensures s.pcs[w].f in s.fibers && Core(RunFiber(s, w, s.pcs[w].f))
  {
    assert WorkerOk(s, w);
    HeldMoveKeeps(s, w, s.pcs[w].f, s.fibers[s.pcs[w].f].(state := RUNNING), OnFiber(s.pcs[w].f));
  }

  /** A fiber off its worker's stack is let go suspended. */
  lemma ReleaseKeeps(s: State, w: Worker, f: FiberId, x: Fiber)
    requires Core(s) && w < |s.pcs| && s.pcs[w] == Committing(f) && f in s.fibers && x.home == s.fibers[f].home &&
      x.state == SUSPENDED
    ensures Core(SetPc(SetFiber(s, f, x), w, Loop))
  {
    var t := SetPc(SetFiber(s, f, x), w, Loop);
    NotQueued(s, f, w);
    forall v: nat | v < |t.pcs| ensures WorkerOk(t, v) { assert WorkerOk(s, v); }
    forall g | g in t.fibers ensures PlaceOk(t, g) { assert PlaceOk(s, g); }
  }

  /** A finished fiber is unregistered. */
  lemma DestroyKeeps(s: State, w: Worker, f: FiberId)
    requires Core(s) && w < |s.pcs| && s.pcs[w] == Committing(f)
    ensures Core(SetPc(s, w, Loop).(fibers := s.fibers - {f}))
  {
    var t := SetPc(s, w, Loop).(fibers := s.fibers - {f});
    NotQueued(s, f, w);
    assert WorkerOk(s, w);
    forall v: nat | v < |t.pcs| ensures WorkerOk(t, v) { assert WorkerOk(s, v); }
    forall g | g in t.fibers ensures PlaceOk(t, g) { assert PlaceOk(s, g); }
  }

  lemma WorkerAt(s: State, w: Worker)
    requires Core(s) && w < |s.pcs|
    ensures WorkerOk(s, w)
  {}

  lemma CommitKeeps(s: State, w: Worker)
    requires Core(s) && w < |s.pcs| && s.pcs[w].Committing? && s.runningCount > 0
    ensures Known(s, s.pcs[w].f) && Core(CommitFiber(s, w, s.pcs[w].f))
  {
    var f := s.pcs[w].f;
    WorkerAt(s, w);
    var u := s.(runningCount := s.runningCount - 1);
    CoreSame(s, u);
    assert Known(s, f);
    hide Core, MakeReady, SameRest, Notify, CommitFiber, SetPc, SetFiber;
    if s.fibers[f].state == DONE {
      DestroyKeeps(u, w, f);
      CommitDestroys(s, w, f);
    } else {
      ReleaseKeeps(u, w, f, Released(s.fibers[f]));
      CommitReleases(s, w, f);
      if Requeues(s.fibers[f]) { ReleasedReady(u, w, f, Released(s.fibers[f])); }
    }
  }

  function Released(x: Fiber): Fiber
  {
    x.(state := SUSPENDED, intent := PARK_NONE)
  }

  lemma CommitDestroys(s: State, w: Worker, f: FiberId)
    requires w < |s.pcs| && Known(s, f) && s.runningCount > 0 && s.fibers[f].state == DONE
    ensures CommitFiber(s, w, f) == SetPc(s.(runningCount := s.runningCount - 1), w, Loop).(fibers := s.fibers - {f})
  {
    hide SameRest, Notify;
  }

  lemma CommitReleases(s: State, w: Worker, f: FiberId)
    requires w < |s.pcs| && Known(s, f) && s.runningCount > 0 && s.fibers[f].state != DONE
    ensures var t := SetPc(SetFiber(s.(runningCount := s.runningCount - 1), f, Released(s.fibers[f])), w, Loop);
      Known(t, f) && CommitFiber(s, w, f) == if Requeues(s.fibers[f]) then MakeReady(t, f) else t
  {
    hide SameRest, Notify, MakeReady;
  }

  lemma ReleasedReady(s: State, w: Worker, f: FiberId, x: Fiber)
    requires w < |s.pcs| && x.state == SUSPENDED && Core(SetPc(SetFiber(s, f, x), w, Loop))
    ensures Known(SetPc(SetFiber(s, f, x), w, Loop), f) && Core(MakeReady(SetPc(SetFiber(s, f, x), w, Loop), f))
  {
    hide Queues, Workers, Places, MakeReady;
    ReadyKeeps(SetPc(SetFiber(s, f, x), w, Loop), f);
  }

  /** The queues change only with a kick for the poller. */
  lemma CommitParts(s: State, w: Worker, f: FiberId)
    requires w < |s.pcs| && Known(s, f) && s.runningCount > 0
    ensures var t := CommitFiber(s, w, f);
      && |t.ready| == |s.ready|
      && if Requeues(s.fibers[f]) then t.kicked == (s.kicked || s.pollerActive)
        else t.ready == s.ready && t.kicked == s.kicked
  {
    hide SameRest, Notify;
  }

  lemma ResumeKeeps(s: State, f: FiberId)
    requires Core(s)
    ensures (f in s.fibers ==> Known(s, f)) && Core(Resume(s, f))
  {
    if f in s.fibers {
      if s.fibers[f].state == SUSPENDED {
        ReadyKeeps(s, f);
      } else if s.fibers[f].state == PARKING {
        assert PlaceOk(s, f);
        var w := s.fibers[f].home;
        HeldMoveKeeps(s, w, f, s.fibers[f].(pending := true), s.pcs[w]);
        assert SetPc(SetFiber(s, f, s.fibers[f].(pending := true)), w, s.pcs[w]) == Resume(s, f);
      }
    }
  }

  lemma ParkKeeps(s: State, w: Worker, intent: ParkIntent, source: Source)
    requires Core(s) && w < |s.pcs| && s.pcs[w].OnFiber? && intent != PARK_NONE
    ensures s.pcs[w].f in s.fibers && Core(Park(s, w, intent, source))
  {
    assert WorkerOk(s, w);
    var f := s.pcs[w].f;
    HeldMoveKeeps(s, w, f, s.fibers[f].(state := PARKING, intent := intent, pending := false, source := source),
      Leaving(f));
  }

  /** A registered fiber starts suspended; a ready one is then pushed. */
  lemma RegisterKeeps(s: State, f: FiberId)
    requires Core(s) && f !in s.fibers
    ensures Core(Register(s, f, SUSPENDED))
  {
    var t := Register(s, f, SUSPENDED);
    forall v: nat | v < |t.pcs| ensures WorkerOk(t, v) { assert WorkerOk(s, v); }
    forall g | g in t.fibers ensures PlaceOk(t, g) { if g in s.fibers { assert PlaceOk(s, g); } }
  }

  lemma SpawnKeeps(s: State, f: FiberId)
    requires Core(s) && f !in s.fibers
    ensures Core(Push(Register(s, f, READY), f))
  {
    var t := Register(s, f, SUSPENDED);
    RegisterKeeps(s, f);
    ReadyKeeps(t, f);
    assert Push(Register(s, f, READY), f).fibers == MakeReady(t, f).fibers;
    assert Push(Register(s, f, READY), f) == MakeReady(t, f);
  }

  lemma ParkingKeepsCore(s: State, w: Worker, act: Act)
    requires Core(s) && Enabled(s, ByFiber(w, act)) &&
      (act.Yield? || act.Suspend? || act.Sleep? || act.WaitFd? || act.ParkOnStripe?)
    ensures Core(DoAct(s, w, act))
  {
    hide Queues, Workers, Places, Park, HoldsNone;
    var me := s.pcs[w].f;
    match act
    case Yield => ParkKeeps(s, w, PARK_YIELD, Anyone);
    case Suspend => ParkKeeps(s, w, PARK_SUSPEND, Anyone);
    case Sleep(deadline) =>
      CoreSame(s, s.(timers := s.timers[me := deadline]));
      ParkKeeps(s.(timers := s.timers[me := deadline]), w, PARK_SUSPEND, Timer);
    case WaitFd =>
      var t := s.(armed := s.armed + {me}, armedWaiters := s.armedWaiters + 1);
      CoreSame(s, t);
      ParkKeeps(t, w, PARK_SUSPEND, Descriptor);
    case ParkOnStripe(st) =>
      CoreSame(s, s.(holder := s.holder - {st}));
      ParkKeeps(s.(holder := s.holder - {st}), w, PARK_SUSPEND, Monitor);
  }

  lemma ActKeepsCore(s: State, w: Worker, act: Act)
    requires Core(s) && Enabled(s, ByFiber(w, act))
    ensures Core(DoAct(s, w, act))
  {
    if act.Yield? || act.Suspend? || act.Sleep? || act.WaitFd? || act.ParkOnStripe? {
      ParkingKeepsCore(s, w, act);
    } else {
      hide Core, Park, Resume, HoldsNone;
      match act
      case ResumeFetched(f) =>
        CoreSame(s, s.(fetched := s.fetched - {f}));
        ResumeKeeps(s.(fetched := s.fetched - {f}), f);
      case ResumeOther(f) => ResumeKeeps(s, f);
      case SpawnReady(f) => SpawnKeeps(s, f);
      case SpawnSuspended(f) => RegisterKeeps(s, f);
      case Finish => FinishKeeps(s, w);
      case StripeEnter(_) => CoreSame(s, DoAct(s, w, act));
      case StripeExit(_) => CoreSame(s, DoAct(s, w, act));
      case Enqueue(_) => CoreSame(s, DoAct(s, w, act));
      case Fetch(_, _) => CoreSame(s, DoAct(s, w, act));
      case _ =>
    }
  }

  lemma FinishKeeps(s: State, w: Worker)
    requires Core(s) && w < |s.pcs| && s.pcs[w].OnFiber?
    ensures var f := s.pcs[w].f;
      f in s.fibers &&
      Core(SetPc(SetFiber(s, f, s.fibers[f].(state := DONE)), w, Leaving(f)))
  {
    assert WorkerOk(s, w);
    HeldMoveKeeps(s, w, s.pcs[w].f, s.fibers[s.pcs[w].f].(state := DONE), Leaving(s.pcs[w].f));
  }

  lemma SwitchOffKeeps(s: State, w: Worker)
    requires Core(s) && w < |s.pcs| && s.pcs[w].Leaving?
    ensures Core(SetPc(s, w, Committing(s.pcs[w].f)))
  {
    var f := s.pcs[w].f;
    assert WorkerOk(s, w) && PlaceOk(s, f);
    HeldMoveKeeps(s, w, f, s.fibers[f], Committing(f));
    assert SetFiber(s, f, s.fibers[f]) == s;
  }

  lemma OpKeepsCore(s: State, w: Worker, op: Op)
    requires Core(s) && Enabled(s, ByWorker(w, op))
    ensures Core(DoOp(s, w, op))
  {
    hide Queues, Workers, Places, Resume, CommitFiber, PopFiber, Notify;
    match op
    case Pop => PopKeeps(s, w);
    case Run => RunKeeps(s, w);
    case SwitchOff => SwitchOffKeeps(s, w);
    case Commit => CommitKeeps(s, w);
    case BeginShutdown =>
      CoreSame(s, s.(shutdown := true));
      IdleMoveKeeps(s.(shutdown := true), w, Exited);
      NotifyKeeps(SetPc(s.(shutdown := true), w, Exited));
    case Exit => IdleMoveKeeps(s, w, Exited);
    case BecomePoller =>
      CoreSame(s, s.(pollerActive := true));
      IdleMoveKeeps(s.(pollerActive := true), w, Polling({}, Entering));
    case Wait => IdleMoveKeeps(s, w, Polling(s.pcs[w].tags, Blocked(Earliest(s.timers))));
    case Return =>
      CoreSame(s, s.(kicked := false));
      IdleMoveKeeps(s.(kicked := false), w, Polling(s.pcs[w].tags, Returned(s.now)));
    case GoIdle => IdleMoveKeeps(s, w, IdleEnter);
    case Report(f) =>
      CoreSame(s, s.(armed := s.armed - {f}));
      IdleMoveKeeps(s.(armed := s.armed - {f}), w, Polling(s.pcs[w].tags + {f}, Returned(s.now)));
    case Deliver(f) =>
      IdleMoveKeeps(s, w, Polling(s.pcs[w].tags - {f}, s.pcs[w].stage));
      CoreSame(SetPc(s, w, Polling(s.pcs[w].tags - {f}, s.pcs[w].stage)), Taken(s, w, f));
      ResumeKeeps(Taken(s, w, f), f);
    case Expire(f) =>
      CoreSame(s, s.(timers := s.timers - {f}));
      ResumeKeeps(s.(timers := s.timers - {f}), f);
    case PollDone(_) =>
      CoreSame(s, s.(pollerActive := false));
      IdleMoveKeeps(s.(pollerActive := false), w, Loop);
      NotifyKeeps(SetPc(s.(pollerActive := false), w, Loop));
    case Recheck => IdleMoveKeeps(s, w, if WakesUp(s, w) then Loop else Asleep(false));
  }
}
