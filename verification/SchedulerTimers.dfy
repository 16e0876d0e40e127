/** The timer heap (vm/concurrency/Scheduler.c) carries out the timer steps of the scheduler: it
    holds the sleepers and their deadlines, sleeping pushes one, waiting reads the first, and
    waking takes out those that are due until a poll may end. */
module SchedulerTimers {
  import opened Options
  import opened Scheduler
  import opened SchedulerWakes
  import opened SchedulerRuns
  import opened SchedulerDeadlines
  import TimerHeap

  /** The heap's entries are the timers, each of them once. */
  ghost predicate Represents(ts: multiset<TimerHeap.Timer>, timers: map<FiberId, int>)
  {
    forall x: TimerHeap.Timer {:trigger ts[x]} ::
      ts[x] == if x.fiberId in timers && timers[x.fiberId] == x.deadline then 1 else 0
  }

  lemma FirstIn(ts: seq<TimerHeap.Timer>)
    requires ts != []
    ensures multiset(ts)[ts[0]] > 0
  {
    assert ts[0] in ts;
  }

  /** The deadline at the top of the heap, which waitForEvents reads, is the earliest. */
  lemma TopIsEarliest(ts: seq<TimerHeap.Timer>, timers: map<FiberId, int>)
    requires TimerHeap.IsHeap(ts) && Represents(multiset(ts), timers)
    ensures Earliest(timers) == if ts == [] then None else Some(ts[0].deadline)
  {
    if ts != [] { FirstIn(ts); }
    if timers != map[] {
      var d := Earliest(timers).value;
      var f :| f in timers && timers[f] == d;
      var x := TimerHeap.Timer(d, f);
      assert multiset(ts)[x] == 1 && x in ts;
      var i :| 0 <= i < |ts| && ts[i] == x;
      TimerHeap.FirstIsEarliest(ts, i);
      assert d <= timers[ts[0].fiberId];
    }
  }

  /** schedulerSleep: a running fiber is not in the heap, and pushing it is its step. */
  lemma SleepPushes(s: State, w: Worker, deadline: int, ts: multiset<TimerHeap.Timer>)
    requires Inv(s) && Enabled(s, ByFiber(w, Sleep(deadline))) && Represents(ts, s.timers)
    ensures Represents(ts + multiset{TimerHeap.Timer(deadline, s.pcs[w].f)},
      Do(s, ByFiber(w, Sleep(deadline))).timers)
  {
    RunningAwake(s, w);
    ActTimers(s, w, Sleep(deadline));
  }

  /** Waking the fibers of some timers, one by one. */
  ghost function Expiries(w: Worker, woken: seq<TimerHeap.Timer>): (steps: seq<Step>)
    ensures |steps| == |woken|
    ensures forall i {:trigger steps[i]} :: 0 <= i < |woken| ==> steps[i] == ByWorker(w, Expire(woken[i].fiberId))
  {
    seq(|woken|, i requires 0 <= i < |woken| => ByWorker(w, Expire(woken[i].fiberId)))
  }

  ghost predicate Serving(s: State, w: Worker, now: int)
  {
    w < |s.pcs| && s.pcs[w].Polling? && s.pcs[w].stage.Returned? && now <= s.now
  }

  lemma SleeperKnown(s: State, f: FiberId)
    requires Inv(s) && f in s.timers
    ensures Known(s, f)
  {
    assert Parked(s, f, Timer);
  }

  lemma ExpireTakes(s: State, w: Worker, f: FiberId)
    requires Enabled(s, ByWorker(w, Expire(f)))
    ensures var t := Do(s, ByWorker(w, Expire(f)));
      t.timers == s.timers - {f} && t.pcs[w] == s.pcs[w] && |t.pcs| == |s.pcs| && t.now == s.now
  {
  }

  lemma OneLess(ts: multiset<TimerHeap.Timer>, x: TimerHeap.Timer, timers: map<FiberId, int>)
    requires Represents(ts, timers) && x in ts
    ensures x.fiberId in timers && timers[x.fiberId] == x.deadline
    ensures Represents(ts - multiset{x}, timers - {x.fiberId})
  {
    assert ts[x] == 1;
  }

  /** The steps of the fibers woken: the others' timers stay. */
  lemma {:induction false} ExpireRuns(s: State, w: Worker, now: int, rest: multiset<TimerHeap.Timer>,
      woken: seq<TimerHeap.Timer>) returns (t: State)
    requires Inv(s) && Serving(s, w, now) && Represents(rest + multiset(woken), s.timers) &&
      TimerHeap.AllDue(woken, now)
    ensures Runs(s, Expiries(w, woken), t) && Represents(rest, t.timers)
    ensures Inv(t) && |t.pcs| == |s.pcs| && t.pcs[w] == s.pcs[w] && t.now == s.now
    decreases |woken|
  {
    hide Inv, Represents, Enabled, Do;
    if woken == [] {
      assert rest + multiset(woken) == rest;
      t := s;
    } else {
      var x, later := woken[0], woken[1..];
      assert woken == [x] + later;
      assert rest + multiset(woken) == rest + multiset(later) + multiset{x};
      OneLess(rest + multiset(woken), x, s.timers);
      assert rest + multiset(woken) - multiset{x} == rest + multiset(later);
      var step := ByWorker(w, Expire(x.fiberId));
      ExpireEnabled(s, w, now, x);
      ExpireTakes(s, w, x.fiberId);
      StepKeeps(s, step);
      forall i | 0 <= i < |later| ensures later[i].deadline <= now { assert later[i] == woken[i + 1]; }
      t := ExpireRuns(Do(s, step), w, now, rest, later);
      assert Expiries(w, woken)[1..] == Expiries(w, later);
    }
  }

  lemma ExpireEnabled(s: State, w: Worker, now: int, x: TimerHeap.Timer)
    requires Inv(s) && Serving(s, w, now) && x.fiberId in s.timers && s.timers[x.fiberId] == x.deadline <= now
    ensures Enabled(s, ByWorker(w, Expire(x.fiberId)))
  {
    SleeperKnown(s, x.fiberId);
  }

  /** What is left is later, so a poll with nothing more to deliver may end. */
  lemma MayEnd(t: State, w: Worker, now: int, rest: seq<TimerHeap.Timer>)
    requires Serving(t, w, now) && t.pcs[w].tags == {} && t.pcs[w].stage.at <= now
    requires Represents(multiset(rest), t.timers) && TimerHeap.AllLater(rest, now)
    ensures Enabled(t, ByWorker(w, PollDone(now)))
  {
    forall f | f in t.timers ensures now < t.timers[f] {
      var x := TimerHeap.Timer(t.timers[f], f);
      assert multiset(rest)[x] == 1 && x in rest;
      var i :| 0 <= i < |rest| && rest[i] == x;
    }
  }

  /** wakeExpiredTimers on the scheduler's heap is a run of Expire steps, one for each fiber taken
      out and in that order, the earliest first, after which the heap holds the timers left and, once the events are
      delivered, the poll may end: nothing due by now is left. */
  method ServeTimers(heap: TimerHeap.Heap, now: int, ghost s: State, ghost w: Worker)
    returns (woken: seq<TimerHeap.Timer>, ghost t: State)
    requires heap.Valid() && Represents(multiset(heap.Contents()), s.timers)
    requires Inv(s) && Serving(s, w, now)
    modifies heap`count, heap.timers
    ensures heap.Valid() && Runs(s, Expiries(w, woken), t) && Represents(multiset(heap.Contents()), t.timers)
    ensures TimerHeap.EarliestFirst(woken)
    ensures s.pcs[w].tags == {} && s.pcs[w].stage.at <= now ==> Enabled(t, ByWorker(w, PollDone(now)))
  {
    hide Inv, Represents, Enabled, Runs;
    woken := heap.WakeExpired(now);
    t := ExpireRuns(s, w, now, multiset(heap.Contents()), woken);
    if s.pcs[w].tags == {} && s.pcs[w].stage.at <= now {
      MayEnd(t, w, now, heap.Contents());
    }
  }
}
