/** Who runs next (vm/concurrency/Scheduler.c:285-316): ready queues are first in, first out, so a
    queued fiber runs after exactly those before it; a fiber that yields goes to the end, one that
    suspends leaves; and new fibers are dealt to the workers in turn. */
module SchedulerOrder {
  import opened Scheduler
  import opened SchedulerInvariant
  import opened SchedulerWakes
  import opened SchedulerRuns

  // ----- one step -----

  /** Queue w after a step: without its first fiber, which the worker now has in hand, exactly if
      that worker popped; otherwise as it was, with at most one fiber more, at the end. */
  ghost predicate QueueMoves(s: State, step: Step, w: Worker)
    requires Enabled(s, step) && w < |s.ready|
  {
    var t := Do(s, step);
    && |t.ready| == |s.ready|
    && if step == ByWorker(w, Pop) then
         s.ready[w] != [] && t.ready[w] == s.ready[w][1..] && w < |t.pcs| && t.pcs[w] == Popped(s.ready[w][0])
       else s.ready[w] <= t.ready[w] && |t.ready[w]| <= |s.ready[w]| + 1
  }

  /** The queue of f's home has f at the end. */
  ghost function Behind(s: State, f: FiberId): seq<seq<FiberId>>
    requires Known(s, f)
  {
    s.ready[s.fibers[f].home := s.ready[s.fibers[f].home] + [f]]
  }

  lemma MakeReadyParts(s: State, f: FiberId)
    requires Known(s, f)
    ensures MakeReady(s, f).ready == Behind(s, f) && MakeReady(s, f).nextHome == s.nextHome
  {
    hide SameRest, Notify;
  }

  lemma ResumeParts(s: State, f: FiberId)
    requires f in s.fibers ==> Known(s, f)
    ensures Resume(s, f).ready == if f in s.fibers && s.fibers[f].state == SUSPENDED then Behind(s, f) else s.ready
    ensures Resume(s, f).nextHome == s.nextHome
  {
    hide SameRest, Notify, MakeReady;
    if f in s.fibers { MakeReadyParts(s, f); }
  }

  lemma CommittedParts(s: State, f: FiberId)
    requires Known(s, f)
    ensures Committed(s, f).ready == if Requeues(s.fibers[f]) then Behind(s, f) else s.ready
    ensures Committed(s, f).nextHome == s.nextHome
  {
    hide SameRest, Notify, MakeReady;
    MakeReadyParts(SetFiber(s, f, s.fibers[f].(state := SUSPENDED, intent := PARK_NONE)), f);
  }

  lemma BehindLonger(s: State, f: FiberId, w: Worker)
    requires Known(s, f) && w < |s.ready|
    ensures |Behind(s, f)| == |s.ready| && s.ready[w] <= Behind(s, f)[w] && |Behind(s, f)[w]| <= |s.ready[w]| + 1
  {
  }

  lemma ResumeQueues(s: State, f: FiberId, w: Worker)
    requires (f in s.fibers ==> Known(s, f)) && w < |s.ready|
    ensures |Resume(s, f).ready| == |s.ready| && s.ready[w] <= Resume(s, f).ready[w] &&
      |Resume(s, f).ready[w]| <= |s.ready[w]| + 1
  {
    hide SameRest, Resume, Behind;
    ResumeParts(s, f);
    if f in s.fibers { BehindLonger(s, f, w); }
  }

  lemma ActQueues(s: State, v: Worker, act: Act, w: Worker)
    requires Enabled(s, ByFiber(v, act)) && w < |s.ready|
    ensures QueueMoves(s, ByFiber(v, act), w)
  {
    if act.ResumeFetched? { ResumeQueues(s.(fetched := s.fetched - {act.f}), act.f, w); }
    if act.ResumeOther? { ResumeQueues(s, act.f, w); }
    hide Resume, SameRest, HoldsNone;
  }

  lemma CommitParts(s: State, w: Worker, f: FiberId)
    requires w < |s.pcs| && Known(s, f) && s.runningCount > 0
    ensures CommitFiber(s, w, f).ready == if Requeues(s.fibers[f]) then Behind(s, f) else s.ready
    ensures CommitFiber(s, w, f).nextHome == s.nextHome
  {
    hide Committed, SameRest, Notify;
    CommittedParts(SetPc(s.(runningCount := s.runningCount - 1), w, Loop), f);
  }

  lemma CommitQueues(s: State, v: Worker, w: Worker)
    requires Enabled(s, ByWorker(v, Commit)) && w < |s.ready|
    ensures QueueMoves(s, ByWorker(v, Commit), w)
  {
    hide CommitFiber, SameRest, Behind, Requeues, DoPoll, AllQueuesEmpty;
    CommitParts(s, v, s.pcs[v].f);
    BehindLonger(s, s.pcs[v].f, w);
  }

  lemma OpQueues(s: State, v: Worker, op: Op, w: Worker)
    requires Enabled(s, ByWorker(v, op)) && w < |s.ready| && |s.ready| == |s.pcs|
    ensures QueueMoves(s, ByWorker(v, op), w)
  {
    if op.Commit? { CommitQueues(s, v, w); }
    if op.Deliver? { ResumeQueues(Taken(s, v, op.f), op.f, w); }
    if op.Expire? { ResumeQueues(s.(timers := s.timers - {op.f}), op.f, w); }
    hide Resume, SameRest, CommitFiber, AllQueuesEmpty;
  }

  lemma StepQueues(s: State, step: Step, w: Worker)
    requires Inv(s) && Enabled(s, step) && w < |s.ready|
    ensures QueueMoves(s, step, w)
  {
    assert |s.ready| == |s.pcs|;
    match step {
      case ByFiber(v, act) => ActQueues(s, v, act, w);
      case ByWorker(v, op) => OpQueues(s, v, op, w);
      case Clock(_) =>
    }
  }

  ghost predicate QueuedAt(s: State, w: Worker, i: nat, f: FiberId)
  {
    w < |s.ready| && i < |s.ready[w]| && s.ready[w][i] == f
  }

  /** A queued fiber keeps its place, moves up one exactly when its home worker pops, and is the
      one popped exactly when it is first. */
  lemma PlaceMoves(s: State, step: Step, w: Worker, i: nat, f: FiberId)
    requires Reachable(s) && Enabled(s, step) && QueuedAt(s, w, i, f)
    ensures if step != ByWorker(w, Pop) then QueuedAt(Do(s, step), w, i, f)
      else if i > 0 then QueuedAt(Do(s, step), w, i - 1, f)
      else w < |Do(s, step).pcs| && Do(s, step).pcs[w] == Popped(f)
    ensures step == ByWorker(w, Pop) && i > 0 ==> Do(s, step).pcs[w] != Popped(f)
  {
    hide Reachable;
    ReachableInv(s);
    PlaceStep(s, step, w, i, f);
    if step == ByWorker(w, Pop) && i > 0 {
      assert s.ready[w][0] != s.ready[w][i];
    }
  }

  lemma PlaceStep(s: State, step: Step, w: Worker, i: nat, f: FiberId)
    requires Inv(s) && Enabled(s, step) && QueuedAt(s, w, i, f)
    ensures if step != ByWorker(w, Pop) then QueuedAt(Do(s, step), w, i, f)
      else if i > 0 then QueuedAt(Do(s, step), w, i - 1, f)
      else w < |Do(s, step).pcs| && Do(s, step).pcs[w] == Popped(f)
    ensures step == ByWorker(w, Pop) ==> w < |Do(s, step).pcs| && Do(s, step).pcs[w] == Popped(s.ready[w][0])
  {
    hide Inv, Enabled, Do;
    StepQueues(s, step, w);
  }

  // ----- runs -----

  ghost function PopsBy(steps: seq<Step>, w: Worker): nat
  {
    if steps == [] then 0 else (if steps[0] == ByWorker(w, Pop) then 1 else 0) + PopsBy(steps[1..], w)
  }

  /** After the first k steps, of which the last is worker w's pop number n + 1, w has f in hand. */
  ghost predicate PopsThen(s: State, steps: seq<Step>, w: Worker, n: nat, f: FiberId, k: nat, u: State)
  {
    && k < |steps| && steps[k] == ByWorker(w, Pop) && PopsBy(steps[..k], w) == n
    && Runs(s, steps[..k + 1], u) && w < |u.pcs| && u.pcs[w] == Popped(f)
  }

  /** A fiber at place i of its queue is popped at its worker's pop number i + 1, and until then
      moves up by one with every pop, whatever else happens. */
  lemma {:induction false} ServedInOrder(s: State, steps: seq<Step>, t: State, w: Worker, i: nat, f: FiberId)
    requires Inv(s) && Runs(s, steps, t) && QueuedAt(s, w, i, f)
    ensures PopsBy(steps, w) <= i ==> QueuedAt(t, w, i - PopsBy(steps, w), f)
    ensures PopsBy(steps, w) > i ==> exists k: nat, u: State :: PopsThen(s, steps, w, i, f, k, u)
    decreases |steps|
  {
    hide Inv, Enabled, Do;
    if steps != [] {
      var s1, rest := Do(s, steps[0]), steps[1..];
      StepKeeps(s, steps[0]);
      PlaceStep(s, steps[0], w, i, f);
      if steps[0] == ByWorker(w, Pop) && i == 0 {
        assert steps[..0] == [] && steps[..1][1..] == [] && steps[..1][0] == steps[0];
        assert Runs(s, steps[..1], s1);
        assert PopsThen(s, steps, w, i, f, 0, s1);
      } else {
        var j := if steps[0] == ByWorker(w, Pop) then i - 1 else i;
        ServedInOrder(s1, rest, t, w, j, f);
        if PopsBy(rest, w) > j {
          var k: nat, u: State :| PopsThen(s1, rest, w, j, f, k, u);
          assert steps[..k + 1][1..] == rest[..k] && steps[..k + 2][1..] == rest[..k + 1];
          assert PopsThen(s, steps, w, i, f, k + 1, u);
        }
      }
    }
  }

  // ----- a fiber on its worker -----

  /** The step wakes f. */
  predicate Wakes(step: Step, f: FiberId)
  {
    || (step.ByFiber? && (step.act == ResumeFetched(f) || step.act == ResumeOther(f)))
    || (step.ByWorker? && (step.op == Deliver(f) || step.op == Expire(f)))
  }

  predicate By(step: Step, w: Worker)
  {
    !step.Clock? && step.w == w
  }

  /** Fiber f, on worker w: nobody else moves it; a wake while it parks is noted. */
  ghost predicate Undisturbed(s: State, step: Step, t: State, w: Worker, f: FiberId)
  {
    && w < |s.pcs| && w < |t.pcs| && t.pcs[w] == s.pcs[w] && f in s.fibers && f in t.fibers
    && t.fibers[f] == s.fibers[f].(pending := s.fibers[f].pending ||
      (s.fibers[f].state == PARKING && Wakes(step, f)))
  }

  lemma ResumeUndisturbed(s: State, g: FiberId, w: Worker, f: FiberId)
    requires (g in s.fibers ==> Known(s, g)) && f in s.fibers && s.fibers[f].state != SUSPENDED
    requires w < |s.pcs| && !s.pcs[w].Asleep?
    ensures var t := Resume(s, g);
      w < |t.pcs| && t.pcs[w] == s.pcs[w] && f in t.fibers &&
      t.fibers[f] == s.fibers[f].(pending := s.fibers[f].pending || (s.fibers[f].state == PARKING && g == f))
  {
    hide SameRest, MakeReady;
  }

  lemma ActUndisturbed(s: State, v: Worker, act: Act, w: Worker, f: FiberId)
    requires Enabled(s, ByFiber(v, act)) && v != w && w < |s.pcs| && !s.pcs[w].Asleep?
    requires f in s.fibers && s.fibers[f].state != SUSPENDED && s.pcs[v].f != f
    ensures Undisturbed(s, ByFiber(v, act), DoAct(s, v, act), w, f)
  {
    if act.ResumeFetched? { ResumeUndisturbed(s.(fetched := s.fetched - {act.f}), act.f, w, f); }
    if act.ResumeOther? { if act.f in s.fibers { ResumeUndisturbed(s, act.f, w, f); } }
    hide Resume, SameRest, HoldsNone;
  }

  lemma OpUndisturbed(s: State, v: Worker, op: Op, w: Worker, f: FiberId)
    requires Enabled(s, ByWorker(v, op)) && v != w && w < |s.pcs| && !s.pcs[w].Asleep?
    requires f in s.fibers && s.fibers[f].state != SUSPENDED && (Holding(s.pcs[v]) ==> s.pcs[v].f != f)
    ensures Undisturbed(s, ByWorker(v, op), DoOp(s, v, op), w, f)
  {
    if op.Commit? { CommittedFibers(s, v, s.pcs[v].f); }
    if op.Deliver? { ResumeUndisturbed(Taken(s, v, op.f), op.f, w, f); }
    if op.Expire? { ResumeUndisturbed(s.(timers := s.timers - {op.f}), op.f, w, f); }
    hide Resume, SameRest, AllQueuesEmpty, Committed;
  }

  lemma HeldApart(s: State, v: Worker, w: Worker)
    requires Core(s) && v < |s.pcs| && w < |s.pcs| && v != w && Holding(s.pcs[w])
    ensures s.pcs[w].f in s.fibers && s.fibers[s.pcs[w].f].state != SUSPENDED
    ensures Holding(s.pcs[v]) ==> s.pcs[v].f != s.pcs[w].f
  {
    WorkerAt(s, v);
    WorkerAt(s, w);
  }

  lemma StepUndisturbed(s: State, step: Step, w: Worker)
    requires Inv(s) && Enabled(s, step) && w < |s.pcs| && Holding(s.pcs[w]) && !By(step, w)
    ensures Undisturbed(s, step, Do(s, step), w, s.pcs[w].f)
  {
    hide ActEnabled, OpEnabled, DoAct, DoOp, Undisturbed;
    match step {
      case ByFiber(v, act) =>
        HeldApart(s, v, w);
        ActUndisturbed(s, v, act, w, s.pcs[w].f);
      case ByWorker(v, op) =>
        HeldApart(s, v, w);
        OpUndisturbed(s, v, op, w, s.pcs[w].f);
      case Clock(_) =>
        WorkerAt(s, w);
        assert Undisturbed(s, step, Do(s, step), w, s.pcs[w].f) by { ClockUndisturbed(s, step, w, s.pcs[w].f); }
    }
  }

  lemma ClockUndisturbed(s: State, step: Step, w: Worker, f: FiberId)
    requires step.Clock? && Enabled(s, step) && w < |s.pcs| && f in s.fibers
    ensures Undisturbed(s, step, Do(s, step), w, f)
  {
  }

  /** What is popped is run: that is the worker's one next step of its own. */
  lemma PoppedRuns(s: State, step: Step, w: Worker, f: FiberId)
    requires Inv(s) && Enabled(s, step) && By(step, w) && w < |s.pcs| && s.pcs[w] == Popped(f)
    ensures step == ByWorker(w, Run) && Do(s, step).pcs == s.pcs[w := OnFiber(f)]
    ensures f in s.fibers && Do(s, step).fibers == s.fibers[f := s.fibers[f].(state := RUNNING)]
  {
    WorkerAt(s, w);
    hide Inv, DoPoll, SameRest, AllQueuesEmpty;
  }

  // ----- leaving -----

  ghost function IntentOf(act: Act): ParkIntent
  {
    if act.Yield? then PARK_YIELD else PARK_SUSPEND
  }

  ghost function SourceOf(act: Act): Source
  {
    if act.Sleep? then Timer else if act.WaitFd? then Descriptor else if act.ParkOnStripe? then Monitor else Anyone
  }

  /** Fiber f is on its way off worker w since it did act; woken says whether it was woken since. */
  ghost predicate OnItsWay(s: State, w: Worker, f: FiberId, act: Act, woken: bool)
  {
    && w < |s.pcs| && (s.pcs[w] == Leaving(f) || s.pcs[w] == Committing(f)) && f in s.fibers
    && (act.Finish? ==> s.fibers[f].state == DONE)
    && (!act.Finish? ==>
      s.fibers[f].state == PARKING && s.fibers[f].intent == IntentOf(act) && s.fibers[f].source == SourceOf(act) &&
      s.fibers[f].pending == woken)
  }

  lemma SetsOut(s: State, w: Worker, act: Act)
    requires Enabled(s, ByFiber(w, act)) && Leaves(act)
    ensures OnItsWay(DoAct(s, w, act), w, s.pcs[w].f, act, false)
  {
    hide HoldsNone, SameRest;
  }

  lemma OwnStep(s: State, step: Step, w: Worker, f: FiberId)
    requires Enabled(s, step) && By(step, w) && w < |s.pcs| && (s.pcs[w] == Leaving(f) || s.pcs[w] == Committing(f))
    ensures step == if s.pcs[w] == Leaving(f) then ByWorker(w, SwitchOff) else ByWorker(w, Commit)
    ensures s.pcs[w] == Leaving(f) ==> Do(s, step) == SetPc(s, w, Committing(f))
  {
    hide DoPoll, SameRest, AllQueuesEmpty;
  }

  ghost predicate WokenIn(steps: seq<Step>, f: FiberId)
  {
    exists i {:trigger steps[i]} :: 0 <= i < |steps| && Wakes(steps[i], f)
  }

  ghost predicate NoCommit(steps: seq<Step>, w: Worker)
  {
    forall i {:trigger steps[i]} :: 0 <= i < |steps| ==> steps[i] != ByWorker(w, Commit)
  }

  lemma WayStep(s: State, step: Step, w: Worker, f: FiberId, act: Act, woken: bool)
    requires Inv(s) && Enabled(s, step) && OnItsWay(s, w, f, act, woken) && step != ByWorker(w, Commit)
    ensures OnItsWay(Do(s, step), w, f, act, woken || Wakes(step, f))
  {
    hide Inv, Enabled, Do;
    if By(step, w) { OwnStep(s, step, w, f); } else { StepUndisturbed(s, step, w); }
  }

  /** Until the worker commits it a fiber that parks stays so, with what it intends and waits for,
      and whether it was woken meanwhile is noted. */
  lemma {:induction false} StaysOnItsWay(s: State, steps: seq<Step>, t: State, w: Worker, f: FiberId, act: Act,
      woken: bool)
    requires Inv(s) && Runs(s, steps, t) && OnItsWay(s, w, f, act, woken) && NoCommit(steps, w)
    ensures Inv(t) && OnItsWay(t, w, f, act, woken || WokenIn(steps, f))
    decreases |steps|
  {
    hide Inv, Enabled, Do, OnItsWay, Wakes;
    if steps != [] {
      var rest := steps[1..];
      StepKeeps(s, steps[0]);
      WayStep(s, steps[0], w, f, act, woken);
      forall i | 0 <= i < |rest| ensures rest[i] != ByWorker(w, Commit) { assert rest[i] == steps[i + 1]; }
      StaysOnItsWay(Do(s, steps[0]), rest, t, w, f, act, woken || Wakes(steps[0], f));
      WokenFirst(steps, f);
    }
  }

  lemma WokenFirst(steps: seq<Step>, f: FiberId)
    requires steps != []
    ensures WokenIn(steps, f) <==> Wakes(steps[0], f) || WokenIn(steps[1..], f)
  {
    hide Wakes;
    var rest := steps[1..];
    if i :| 0 <= i < |steps| && Wakes(steps[i], f) && i > 0 { assert rest[i - 1] == steps[i]; }
    if i :| 0 <= i < |rest| && Wakes(rest[i], f) { assert steps[i + 1] == rest[i]; }
  }

  ghost predicate Settled(s: State, t: State, w: Worker, f: FiberId, act: Act, woken: bool)
    requires w < |s.ready|
  {
    if act.Finish? then f !in t.fibers && t.ready == s.ready
    else f in t.fibers && if act.Yield? || woken
      then t.fibers[f].state == READY && t.ready == s.ready[w := s.ready[w] + [f]]
      else t.fibers[f].state == SUSPENDED && t.fibers[f].source == SourceOf(act) && t.ready == s.ready
  }

  /** Then it is ready again, behind all others, if it yielded or was woken; suspended, if not; and
      gone, if it had finished. The worker is back at its loop. */
  lemma Commits(s: State, w: Worker, f: FiberId, act: Act, woken: bool)
    requires Inv(s) && OnItsWay(s, w, f, act, woken) && Enabled(s, ByWorker(w, Commit))
    ensures var t := Do(s, ByWorker(w, Commit));
      && |t.ready| == |s.ready| && w < |s.ready| && |t.pcs| == |s.pcs| && t.pcs[w] == Loop
      && Settled(s, t, w, f, act, woken)
  {
    WorkerAt(s, w);
    CommittedFibers(s, w, f);
    CommitParts(s, w, f);
    hide Inv, CommitFiber, SameRest, Notify, DoPoll;
    assert Do(s, ByWorker(w, Commit)) == CommitFiber(s, w, f);
  }

  /** What becomes of a fiber that yields, parks or finishes, whatever the others do meanwhile, when
      its worker commits it. */
  lemma ParkFate(s: State, w: Worker, act: Act, steps: seq<Step>, t: State)
    requires Reachable(s) && Enabled(s, ByFiber(w, act)) && Leaves(act)
    requires Runs(Do(s, ByFiber(w, act)), steps, t) && NoCommit(steps, w) && Enabled(t, ByWorker(w, Commit))
    ensures var f := s.pcs[w].f;
      var u := Do(t, ByWorker(w, Commit));
      && w < |t.ready| && w < |u.pcs| && u.pcs[w] == Loop
      && Settled(t, u, w, f, act, WokenIn(steps, f))
  {
    hide Inv, Runs, NoCommit, OnItsWay, WokenIn, DoAct, ActEnabled, DoOp, OpEnabled, Reachable;
    ReachableInv(s);
    StepKeeps(s, ByFiber(w, act));
    SetsOut(s, w, act);
    StaysOnItsWay(Do(s, ByFiber(w, act)), steps, t, w, s.pcs[w].f, act, false);
    Commits(t, w, s.pcs[w].f, act, WokenIn(steps, s.pcs[w].f));
  }

  // ----- homes -----

  predicate Spawns(step: Step)
  {
    step.ByFiber? && (step.act.SpawnReady? || step.act.SpawnSuspended?)
  }

  ghost function SpawnsIn(steps: seq<Step>): nat
  {
    if steps == [] then 0 else (if Spawns(steps[0]) then 1 else 0) + SpawnsIn(steps[1..])
  }

  /** The worker after this one, around. */
  function After(home: Worker, size: nat): Worker
  {
    if home + 1 < size then home + 1 else 0
  }

  lemma SpawnHome(s: State, step: Step)
    requires Enabled(s, step)
    ensures |Do(s, step).pcs| == |s.pcs|
    ensures Do(s, step).nextHome == if Spawns(step) then After(s.nextHome, |s.pcs|) else s.nextHome
    ensures Spawns(step) ==> step.act.f in Do(s, step).fibers && Do(s, step).fibers[step.act.f].home == s.nextHome
  {
    match step {
      case ByFiber(w, act) => ActHome(s, w, act);
      case ByWorker(w, op) => OpHome(s, w, op);
      case Clock(_) =>
    }
  }

  lemma ActHome(s: State, w: Worker, act: Act)
    requires Enabled(s, ByFiber(w, act))
    ensures var t := DoAct(s, w, act);
      && |t.pcs| == |s.pcs|
      && t.nextHome == (if Spawns(ByFiber(w, act)) then After(s.nextHome, |s.pcs|) else s.nextHome)
      && (Spawns(ByFiber(w, act)) ==> act.f in t.fibers && t.fibers[act.f].home == s.nextHome)
  {
    if act.ResumeFetched? { ResumeParts(s.(fetched := s.fetched - {act.f}), act.f); }
    if act.ResumeOther? { ResumeParts(s, act.f); }
    hide Resume, SameRest, HoldsNone;
  }

  lemma OpHome(s: State, w: Worker, op: Op)
    requires Enabled(s, ByWorker(w, op))
    ensures |DoOp(s, w, op).pcs| == |s.pcs| && DoOp(s, w, op).nextHome == s.nextHome
  {
    if op.Commit? { CommitParts(s, w, s.pcs[w].f); }
    if op.Deliver? { ResumeParts(Taken(s, w, op.f), op.f); }
    if op.Expire? { ResumeParts(s.(timers := s.timers - {op.f}), op.f); }
    hide Resume, CommitFiber, SameRest, AllQueuesEmpty;
  }

  /** registerFiber deals homes in turn: after n more fibers the next goes n workers on, around. */
  lemma {:induction false} DealtRound(s: State, steps: seq<Step>, t: State) returns (rounds: nat)
    requires Inv(s) && Runs(s, steps, t)
    ensures t.nextHome < |t.pcs| == |s.pcs| && s.nextHome + SpawnsIn(steps) == Times(rounds, |s.pcs|) + t.nextHome
    decreases |steps|
  {
    HomeInRange(s);
    hide Inv, Enabled, Do, Times, Spawns, After;
    if steps == [] {
      rounds := 0;
      OneMoreRound(0, |s.pcs|);
    } else {
      var u := Do(s, steps[0]);
      StepKeeps(s, steps[0]);
      SpawnHome(s, steps[0]);
      rounds := DealtRound(u, steps[1..], t);
      AfterIs(s.nextHome, |s.pcs|);
      OneMoreRound(rounds, |s.pcs|);
      if Spawns(steps[0]) && u.nextHome == 0 { rounds := rounds + 1; }
    }
  }

  lemma AfterIs(home: Worker, n: nat)
    requires home < n
    ensures After(home, n) == home + 1 || (After(home, n) == 0 && home + 1 == n)
  {
  }

  lemma OneMoreRound(k: nat, n: nat)
    ensures Times(0, n) == 0 && Times(k + 1, n) == n + Times(k, n)
  {
  }

  /** k rounds of n. */
  ghost function Times(k: nat, n: nat): nat
  {
    if k == 0 then 0 else n + Times(k - 1, n)
  }

  lemma HomeInRange(s: State)
    requires Inv(s)
    ensures s.nextHome < |s.pcs|
  {
  }
}
