/** The poller on its way into epoll_wait, or in it: whatever lands on its own queue kicks it out,
    and there is something for it to wait for. */
module SchedulerPolling {
  import opened Options
  import opened Scheduler
  import opened SchedulerInvariant
  import opened SchedulerWakes

  ghost predicate PollerOk(s: State, w: Worker)
    requires w < |s.pcs| && w < |s.ready|
  {
    s.pcs[w].Polling? && !s.pcs[w].stage.Returned? ==>
      && s.pcs[w].tags == {} && Pending(s)
      && (s.kicked || s.ready[w] == [])
      && (s.pcs[w].stage == Blocked(None) ==> s.armed != {})
  }

  ghost predicate PollOk(s: State)
  {
    |s.pcs| == |s.ready| && forall w {:trigger s.pcs[w]} :: 0 <= w < |s.pcs| ==> PollerOk(s, w)
  }

  /** Nothing a poller relies on has gone: no wake source, no kick; and a queue has changed only
      with a kick, if a poller was there to kick. */
  ghost predicate Undisturbed(s: State, t: State)
  {
    && |t.ready| == |s.ready| && (s.kicked ==> t.kicked) && (s.pollerActive ==> t.ready == s.ready || t.kicked)
    && s.armed <= t.armed && s.armedWaiters <= t.armedWaiters && s.timers.Keys <= t.timers.Keys
  }

  /** Pollers are where they were. */
  ghost predicate PollersStay(s: State, t: State)
  {
    |t.pcs| == |s.pcs| && forall w {:trigger t.pcs[w]} :: 0 <= w < |t.pcs| && t.pcs[w].Polling? ==> t.pcs[w] == s.pcs[w]
  }

  lemma PollKept(s: State, t: State)
    requires PollOk(s) && DescriptorsOk(s) && Undisturbed(s, t) && PollersStay(s, t)
    ensures PollOk(t)
  {
    forall w | 0 <= w < |t.pcs| ensures PollerOk(t, w) {
      assert PollerOk(s, w);
      if t.pcs[w].Polling? && s.timers != map[] { var f :| f in s.timers; assert f in t.timers.Keys; }
    }
  }

  lemma ResumeUndisturbed(s: State, f: FiberId)
    requires f in s.fibers ==> Known(s, f)
    ensures Undisturbed(s, Resume(s, f)) && PollersStay(s, Resume(s, f))
  {
    hide SameRest;
  }

  lemma SpawnUndisturbed(s: State, f: FiberId)
    requires Fresh(s, f) && s.nextHome < |s.ready|
    ensures Undisturbed(s, Push(Register(s, f, READY), f)) && PollersStay(s, Push(Register(s, f, READY), f))
  {
    hide SameRest;
  }

  lemma ActUndisturbed(s: State, w: Worker, act: Act)
    requires Enabled(s, ByFiber(w, act))
    ensures Undisturbed(s, DoAct(s, w, act)) && PollersStay(s, DoAct(s, w, act))
  {
    hide Resume, Push, HoldsNone, SameRest;
    match act
    case ResumeFetched(f) => ResumeUndisturbed(s.(fetched := s.fetched - {f}), f);
    case ResumeOther(f) => ResumeUndisturbed(s, f);
    case SpawnReady(f) => SpawnUndisturbed(s, f);
    case _ =>
  }

  lemma CommitUndisturbed(s: State, w: Worker)
    requires Enabled(s, ByWorker(w, Commit))
    ensures Undisturbed(s, DoOp(s, w, Commit)) && PollersStay(s, DoOp(s, w, Commit))
  {
    CommitParts(s, w, s.pcs[w].f);
    hide CommitFiber;
  }

  lemma ActKeepsPoll(s: State, w: Worker, act: Act)
    requires PollOk(s) && DescriptorsOk(s) && Enabled(s, ByFiber(w, act))
    ensures PollOk(DoAct(s, w, act))
  {
    ActUndisturbed(s, w, act);
    hide PollOk, DescriptorsOk, DoAct, Undisturbed, PollersStay, ActEnabled;
    PollKept(s, DoAct(s, w, act));
  }

  /** A worker between fibers that is no poller touches only its own queue. */
  lemma WorkerKeepsPoll(s: State, w: Worker, op: Op)
    requires PollOk(s) && Enabled(s, ByWorker(w, op)) &&
      (op.Pop? || op.Run? || op.SwitchOff? || op.Exit? || op.GoIdle? || op.Recheck? || op.BeginShutdown?)
    ensures PollOk(DoOp(s, w, op))
  {
    var t := DoOp(s, w, op);
    hide AllQueuesEmpty;
    forall v | 0 <= v < |t.pcs| ensures PollerOk(t, v) { assert PollerOk(s, v); }
  }

  lemma PollerStartsPoll(s: State, w: Worker)
    requires PollOk(s) && DescriptorsOk(s) && Enabled(s, ByWorker(w, BecomePoller))
    ensures PollOk(DoOp(s, w, BecomePoller))
  {
    var t := DoOp(s, w, BecomePoller);
    forall v | 0 <= v < |t.pcs| ensures PollerOk(t, v) { assert PollerOk(s, v); }
  }

  /** With no timer set, what was pending when it became the poller is a descriptor. */
  lemma WaitPoll(s: State, w: Worker)
    requires PollOk(s) && DescriptorsOk(s) && Enabled(s, ByWorker(w, Wait))
    ensures PollOk(DoOp(s, w, Wait))
  {
    var t := DoOp(s, w, Wait);
    assert PollerOk(s, w);
    forall v | 0 <= v < |t.pcs| ensures PollerOk(t, v) { assert PollerOk(s, v); }
  }

  /** Back from epoll_wait, the poller has the loop top ahead of it. */
  lemma BackPoll(s: State, w: Worker, op: Op)
    requires PollOk(s) && DescriptorsOk(s) && Enabled(s, ByWorker(w, op)) && (op.Return? || op.Report? || op.PollDone?)
    ensures PollOk(DoOp(s, w, op))
  {
    var t := DoOp(s, w, op);
    forall v | 0 <= v < |t.pcs| ensures PollerOk(t, v) {
      assert PollerOk(s, v);
    }
  }

  lemma ServePoll(s: State, w: Worker, op: Op)
    requires PollOk(s) && DescriptorsOk(s) && Enabled(s, ByWorker(w, op)) && (op.Deliver? || op.Expire?)
    ensures PollOk(DoOp(s, w, op))
  {
    var u := if op.Deliver? then Taken(s, w, op.f) else s.(timers := s.timers - {op.f});
    assert u.pcs[w].Polling? && u.pcs[w].stage.Returned? && |u.pcs| == |s.pcs|;
    ResumeUndisturbed(u, op.f);
    var t := DoOp(s, w, op);
    hide Resume, Undisturbed;
    forall v | 0 <= v < |t.pcs| ensures PollerOk(t, v) {
      var before := s.pcs[v];
    }
  }

  lemma OpKeepsPoll(s: State, w: Worker, op: Op)
    requires PollOk(s) && DescriptorsOk(s) && Enabled(s, ByWorker(w, op))
    ensures PollOk(DoOp(s, w, op))
  {
    hide PollOk, DescriptorsOk, DoOp, OpEnabled, Undisturbed, PollersStay;
    match op
    case Commit =>
      CommitUndisturbed(s, w);
      PollKept(s, DoOp(s, w, Commit));
    case BecomePoller => PollerStartsPoll(s, w);
    case Wait => WaitPoll(s, w);
    case Return => BackPoll(s, w, op);
    case Report(_) => BackPoll(s, w, op);
    case PollDone(_) => BackPoll(s, w, op);
    case Deliver(_) => ServePoll(s, w, op);
    case Expire(_) => ServePoll(s, w, op);
    case _ => WorkerKeepsPoll(s, w, op);
  }
}
