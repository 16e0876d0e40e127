/** Which deadlines a poller in epoll_wait will serve on time. It waits until the deadline that
    was earliest when it went in; schedulerSleep pushes a timer without kicking it. So a deadline
    that comes in meanwhile and is earlier passes unserved, and no other one does. */
module SchedulerDeadlines {
  import opened Options
  import opened Scheduler
  import opened SchedulerInvariant
  import opened SchedulerWakes
  import opened SchedulerRuns

  ghost predicate Covers(until: Option<int>, deadline: int)
  {
    until.Some? && until.value <= deadline
  }

  ghost predicate AllCovered(timers: map<FiberId, int>, until: Option<int>)
  {
    forall f {:trigger timers[f]} :: f in timers ==> Covers(until, timers[f])
  }

  /** A fiber goes to sleep with a deadline before the poller's. */
  ghost predicate EarlySleep(step: Step, until: Option<int>)
  {
    step.ByFiber? && step.act.Sleep? && !Covers(until, step.act.deadline)
  }

  ghost predicate InWait(s: State, w: Worker, until: Option<int>)
  {
    w < |s.pcs| && s.pcs[w].Polling? && s.pcs[w].stage == Blocked(until)
  }

  ghost predicate NotBy(step: Step, w: Worker)
  {
    !(step.ByWorker? && step.w == w)
  }

  /** Going in, the poller covers every timer there is. */
  lemma WaitCovers(s: State, w: Worker)
    requires Enabled(s, ByWorker(w, Wait))
    ensures var t := Do(s, ByWorker(w, Wait));
      InWait(t, w, Earliest(s.timers)) && AllCovered(t.timers, Earliest(s.timers))
  {}

  lemma RunningAwake(s: State, w: Worker)
    requires Core(s) && TimersOk(s) && w < |s.pcs| && s.pcs[w].OnFiber?
    ensures s.pcs[w].f !in s.timers
  {
    WorkerAt(s, w);
    assert !Parked(s, s.pcs[w].f, Timer);
  }

  /** While the poller waits, timers are added and none is taken away. */
  lemma StepTimers(s: State, w: Worker, until: Option<int>, step: Step)
    requires Inv(s) && InWait(s, w, until) && Enabled(s, step) && NotBy(step, w)
    ensures InWait(Do(s, step), w, until)
    ensures AllCovered(Do(s, step).timers, until) <==> AllCovered(s.timers, until) && !EarlySleep(step, until)
  {
    match step {
      case ByFiber(v, act) =>
        ActTimers(s, v, act);
        RunningAwake(s, v);
        ActStays(s, v, act, w);
        hide Inv, DoAct, ActEnabled, Covers;
        SleepCovered(s.timers, s.pcs[v].f, act, until);
      case ByWorker(v, op) => OthersStay(s, v, op, w);
      case Clock(_) =>
    }
  }

  lemma SleepCovered(timers: map<FiberId, int>, f: FiberId, act: Act, until: Option<int>)
    requires f !in timers
    ensures var after := if act.Sleep? then timers[f := act.deadline] else timers;
      AllCovered(after, until) <==> AllCovered(timers, until) && !(act.Sleep? && !Covers(until, act.deadline))
  {
    if act.Sleep? {
      var after := timers[f := act.deadline];
      if AllCovered(after, until) {
        assert Covers(until, after[f]);
        forall g | g in timers ensures Covers(until, timers[g]) { assert after[g] == timers[g]; }
      }
    }
  }

  lemma ActStays(s: State, v: Worker, act: Act, w: Worker)
    requires Enabled(s, ByFiber(v, act)) && w < |s.pcs| && s.pcs[w].Polling?
    ensures |DoAct(s, v, act).pcs| == |s.pcs| && DoAct(s, v, act).pcs[w] == s.pcs[w]
  {
    hide Resume, Push, HoldsNone, SameRest;
  }

  lemma OthersStay(s: State, v: Worker, op: Op, w: Worker)
    requires DescriptorsOk(s) && Enabled(s, ByWorker(v, op)) && w < |s.pcs| && s.pcs[w].Polling? && v != w
    ensures |DoOp(s, v, op).pcs| == |s.pcs| && DoOp(s, v, op).pcs[w] == s.pcs[w] && DoOp(s, v, op).timers == s.timers
  {
    var here, there := s.pcs[v], s.pcs[w];
    assert !here.Polling?;
    hide CommitFiber, AllQueuesEmpty, SameRest;
  }

  /** Exactly when every outstanding deadline is covered, however long the poller has been in
      epoll_wait and whatever the others have done meanwhile: no fiber has gone to sleep with a
      deadline before the poller's. */
  lemma {:induction false} CoveredIff(s: State, w: Worker, until: Option<int>, steps: seq<Step>, t: State)
    requires Inv(s) && InWait(s, w, until) && Runs(s, steps, t)
    requires forall i {:trigger steps[i]} :: 0 <= i < |steps| ==> NotBy(steps[i], w)
    ensures InWait(t, w, until)
    ensures AllCovered(t.timers, until) <==> AllCovered(s.timers, until) && forall i {:trigger steps[i]} ::
      0 <= i < |steps| ==> !EarlySleep(steps[i], until)
    decreases |steps|
  {
    hide Inv, Enabled, Do, AllCovered, InWait, EarlySleep, NotBy;
    if steps != [] {
      StepKeeps(s, steps[0]);
      StepTimers(s, w, until, steps[0]);
      var rest := steps[1..];
      forall i | 0 <= i < |rest| ensures NotBy(rest[i], w) { assert rest[i] == steps[i + 1]; }
      CoveredIff(Do(s, steps[0]), w, until, rest, t);
      NoneEarly(steps, until);
    }
  }

  lemma NoneEarly(steps: seq<Step>, until: Option<int>)
    requires steps != []
    ensures (forall i {:trigger steps[i]} :: 0 <= i < |steps| ==> !EarlySleep(steps[i], until)) <==>
      !EarlySleep(steps[0], until) && forall i {:trigger steps[1..][i]} ::
        0 <= i < |steps| - 1 ==> !EarlySleep(steps[1..][i], until)
  {
    hide EarlySleep;
    var rest := steps[1..];
    if !EarlySleep(steps[0], until) && forall i {:trigger rest[i]} :: 0 <= i < |rest| ==> !EarlySleep(rest[i], until) {
      forall i | 0 <= i < |steps| ensures !EarlySleep(steps[i], until) { if i > 0 { assert rest[i - 1] == steps[i]; } }
    }
  }

  /** From going in: the sleepers then are served by the deadline they set. */
  lemma CoveredSinceWait(s: State, w: Worker, steps: seq<Step>, t: State)
    requires Reachable(s) && Enabled(s, ByWorker(w, Wait)) && Runs(Do(s, ByWorker(w, Wait)), steps, t)
    requires forall i {:trigger steps[i]} :: 0 <= i < |steps| ==> NotBy(steps[i], w)
    ensures AllCovered(t.timers, Earliest(s.timers)) <==> forall i {:trigger steps[i]} ::
      0 <= i < |steps| ==> !EarlySleep(steps[i], Earliest(s.timers))
  {
    hide Inv, Runs, Do, AllCovered, InWait, EarlySleep, NotBy, Reachable, Enabled;
    ReachableInv(s);
    StepKeeps(s, ByWorker(w, Wait));
    WaitCovers(s, w);
    CoveredIff(Do(s, ByWorker(w, Wait)), w, Earliest(s.timers), steps, t);
  }

  // ----- an unserved deadline -----

  lemma {:induction false} RunsOn(s: State, steps: seq<Step>, t: State, step: Step)
    requires Runs(s, steps, t) && Enabled(t, step)
    ensures Runs(s, steps + [step], Do(t, step))
    decreases |steps|
  {
    hide Enabled, Do;
    var more := steps + [step];
    if steps == [] {
      assert more[1..] == [];
    } else {
      RunsOn(Do(s, steps[0]), steps[1..], t, step);
      assert more[1..] == steps[1..] + [step];
    }
  }

  lemma Onward(t: State, step: Step, u: State)
    requires Reachable(t) && Goes(t, step, u)
    ensures Reachable(u)
  {
    hide Runs, Init, Enabled, Do;
    var s: State, steps: seq<Step> :| Init(s) && Runs(s, steps, t);
    RunsOn(s, steps, t, step);
  }

  ghost predicate Goes(s: State, step: Step, t: State)
  {
    Enabled(s, step) && Do(s, step) == t
  }

  function Of(state: FiberState, home: Worker): Fiber
  {
    Fiber(state, home, PARK_NONE, false, Anyone)
  }

  function Waits(state: FiberState, home: Worker, source: Source): Fiber
  {
    Fiber(state, home, if state == SUSPENDED then PARK_NONE else PARK_SUSPEND, false, source)
  }

  /** Fiber 2 is still to run on worker 1. */
  ghost function First(a: Fiber, p: Pc, queue: seq<FiberId>, armed: set<FiberId>, running: nat, polling: bool): State
  {
    State(map[1 := a, 2 := Of(READY, 1)], [p, Loop], [queue, [2]], 0, map[], armed, |armed|, running, polling, false, 0,
      false, map[], map[], map[])
  }

  /** Fiber 1 waits for a descriptor, and its worker polls for it. */
  ghost function Second(b: Fiber, q: Pc, queue: seq<FiberId>, timers: map<FiberId, int>, running: nat): State
  {
    State(map[1 := Waits(SUSPENDED, 0, Descriptor), 2 := b], [Polling({}, Blocked(None)), q], [[], queue], 0,
          timers, {1}, 1, running, true, false, 0, false, map[], map[], map[])
  }

  ghost function Stuck(): State
  {
    Second(Waits(SUSPENDED, 1, Timer), Asleep(false), [], map[2 := 5], 0).(now := 1000)
  }

  const MOMENTS: nat := 15

  ghost function Moment(i: nat): State
  {
    match i
    case 0 => First(Of(READY, 0), Loop, [1], {}, 0, false)
    case 1 => First(Of(READY, 0), Popped(1), [], {}, 1, false)
    case 2 => First(Of(RUNNING, 0), OnFiber(1), [], {}, 1, false)
    case 3 => First(Waits(PARKING, 0, Descriptor), Leaving(1), [], {1}, 1, false)
    case 4 => First(Waits(PARKING, 0, Descriptor), Committing(1), [], {1}, 1, false)
    case 5 => First(Waits(SUSPENDED, 0, Descriptor), Loop, [], {1}, 0, false)
    case 6 => First(Waits(SUSPENDED, 0, Descriptor), Polling({}, Entering), [], {1}, 0, true)
    case 7 => Second(Of(READY, 1), Loop, [2], map[], 0)
    case 8 => Second(Of(READY, 1), Popped(2), [], map[], 1)
    case 9 => Second(Of(RUNNING, 1), OnFiber(2), [], map[], 1)
    case 10 => Second(Waits(PARKING, 1, Timer), Leaving(2), [], map[2 := 5], 1)
    case 11 => Second(Waits(PARKING, 1, Timer), Committing(2), [], map[2 := 5], 1)
    case 12 => Second(Waits(SUSPENDED, 1, Timer), Loop, [], map[2 := 5], 0)
    case 13 => Second(Waits(SUSPENDED, 1, Timer), IdleEnter, [], map[2 := 5], 0)
    case 14 => Second(Waits(SUSPENDED, 1, Timer), Asleep(false), [], map[2 := 5], 0)
    case _ => Stuck()
  }

  function Move(i: nat): Step
  {
    match i
    case 0 => ByWorker(0, Pop)
    case 1 => ByWorker(0, Run)
    case 2 => ByFiber(0, WaitFd)
    case 3 => ByWorker(0, SwitchOff)
    case 4 => ByWorker(0, Commit)
    case 5 => ByWorker(0, BecomePoller)
    case 6 => ByWorker(0, Wait)
    case 7 => ByWorker(1, Pop)
    case 8 => ByWorker(1, Run)
    case 9 => ByFiber(1, Sleep(5))
    case 10 => ByWorker(1, SwitchOff)
    case 11 => ByWorker(1, Commit)
    case 12 => ByWorker(1, GoIdle)
    case 13 => ByWorker(1, Recheck)
    case _ => Clock(1000)
  }

  lemma Begins()
    ensures Reachable(Moment(0))
  {
    var s := Moment(0);
    assert Core(s) by {
      forall w: nat | w < |s.pcs| ensures WorkerOk(s, w) {}
      forall f | f in s.fibers ensures PlaceOk(s, f) {
        assert f == 1 ==> s.ready[0][0] == 1;
        assert f == 2 ==> s.ready[1][0] == 2;
      }
    }
    assert Init(s);
    assert Runs(s, [], s);
  }

  lemma FirstRuns(i: nat)
    requires i < 2
    ensures Goes(Moment(i), Move(i), Moment(i + 1))
  {
    assert [1][1..] == [];
    var b := Of(READY, 1);
    assert map[1 := Of(READY, 0), 2 := b][1 := Of(RUNNING, 0)] == map[1 := Of(RUNNING, 0), 2 := b];
  }

  lemma FirstWaits()
    ensures Goes(Moment(2), Move(2), Moment(3))
  {
    var a, b := Of(RUNNING, 0), Of(READY, 1);
    assert map[1 := a, 2 := b][1 := Waits(PARKING, 0, Descriptor)] == map[1 := Waits(PARKING, 0, Descriptor), 2 := b];
  }

  lemma FirstPolls(i: nat)
    requires 3 <= i < 7
    ensures Goes(Moment(i), Move(i), Moment(i + 1))
  {
    var a, b := Waits(SUSPENDED, 0, Descriptor), Of(READY, 1);
    assert map[1 := Waits(PARKING, 0, Descriptor), 2 := b][1 := a] == map[1 := a, 2 := b];
  }

  lemma SecondSleeps(i: nat)
    requires 7 <= i < 10
    ensures Goes(Moment(i), Move(i), Moment(i + 1))
  {
    assert [2][1..] == [];
    var a := Waits(SUSPENDED, 0, Descriptor);
    assert map[1 := a, 2 := Of(READY, 1)][2 := Of(RUNNING, 1)] == map[1 := a, 2 := Of(RUNNING, 1)];
    assert map[1 := a, 2 := Of(RUNNING, 1)][2 := Waits(PARKING, 1, Timer)] ==
      map[1 := a, 2 := Waits(PARKING, 1, Timer)];
  }

  lemma SecondCommits()
    ensures Goes(Moment(11), Move(11), Moment(12))
  {
    CommitReleases(Moment(11), 1, 2);
    hide CommitFiber;
    var a := Waits(SUSPENDED, 0, Descriptor);
    assert map[1 := a, 2 := Waits(PARKING, 1, Timer)][2 := Waits(SUSPENDED, 1, Timer)] ==
      map[1 := a, 2 := Waits(SUSPENDED, 1, Timer)];
  }

  lemma SecondIdles(i: nat)
    requires i == 10 || 12 <= i < MOMENTS
    ensures Goes(Moment(i), Move(i), Moment(i + 1))
  {
    assert 2 in map[2 := 5];
  }

  lemma {:induction false} Leads(i: nat)
    requires i <= MOMENTS
    ensures Reachable(Moment(i))
  {
    hide Moment, Move, Goes, Reachable;
    if i == 0 {
      Begins();
    } else {
      Leads(i - 1);
      if i <= 2 { FirstRuns(i - 1); } else if i == 3 { FirstWaits(); } else if i <= 7
        { FirstPolls(i - 1); } else if i <= 10 { SecondSleeps(i - 1); } else if i == 12 { SecondCommits(); } else
        { SecondIdles(i - 1); }
      Onward(Moment(i - 1), Move(i - 1), Moment(i));
    }
  }

  lemma OnlyTheDescriptor(step: Step)
    requires Enabled(Stuck(), step) && !step.Clock? && step != ByWorker(1, Recheck)
    ensures step == ByWorker(0, Report(1))
  {
    var s := Stuck();
    assert s.pcs[0] == Polling({}, Blocked(None)) && s.pcs[1] == Asleep(false);
  }

  /** Worker 0 is in epoll_wait for a descriptor, without a deadline, when a fiber on worker 1
      goes to sleep until 5. At 1000 it still sleeps: no worker can do anything but look again
      and fall asleep again, until the descriptor fires. */
  lemma SleepUnserved() returns (t: State)
    ensures Reachable(t) && 2 in t.timers && t.timers[2] < t.now && 2 in t.fibers && t.fibers[2].state == SUSPENDED
    ensures forall step: Step {:trigger Enabled(t, step)} :: Enabled(t, step) && !step.Clock? ==>
      step == ByWorker(0, Report(1)) || (step == ByWorker(1, Recheck) && Do(t, step) == t)
  {
    t := Stuck();
    assert t.pcs[1 := Asleep(false)] == t.pcs;
    forall step: Step | Enabled(t, step) && !step.Clock?
      ensures step == ByWorker(0, Report(1)) || (step == ByWorker(1, Recheck) && Do(t, step) == t)
    {
      if step != ByWorker(1, Recheck) { OnlyTheDescriptor(step); }
    }
    Leads(MOMENTS);
  }
}
