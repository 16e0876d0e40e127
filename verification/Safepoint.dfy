/** The stop-the-world handshake of one heap (vm/memory/Heap.c): polling, blocked regions,
    registration, and the collections that allocation starts in any thread, single or with
    peers. A step is one hold of the safepoint lock or an uncontended action between holds;
    waiting on the condition or on gcLock is a step not yet enabled. */
module Safepoint {

  import opened Options

  type Tid = nat

  /** Where a thread is. Managed is the only place from which it runs managed code. */
  datatype Pc =
    | Fresh            // not registered yet
    | Managed
    | AtPoll           // parked in heapGcPoll
    | PollLeft         // past the wait, lookup cache not yet checked
    | Blocked          // between heapGcEnterBlocked and heapGcLeaveBlocked
    | BlockLeft        // past the wait of heapGcLeaveBlocked, lookup cache not yet checked
    | WantGc           // heapCollectYoung: blocked, waiting for gcLock
    | GotGc            // has gcLock, still blocked
    | GcUnblocked      // has gcLock, past the wait, lookup cache not yet checked
    | GcReady          // has gcLock, deciding
    | GcWaiting        // heapGcBegin: request made, waiting for the others
    | GcStopped        // heapGcBegin returned
    | GcBumped         // collected and epoch advanced, request still up
    | GcAlone          // collecting as the only mutator
    | GcDone           // request withdrawn (or never made), lookup cache not yet checked
    | GcLeaving        // about to release gcLock
    | WantEnd          // heapEndMutator: blocked, waiting for gcLock
    | GotEnd
    | EndUnblocked
    | Ending           // has gcLock, about to leave the list
    | Dead

  /** cache holds, for each entry of the lookup cache, the epoch it was written in. */
  datatype Mutator = Mutator(pc: Pc, atSafepoint: bool, blocked: bool, cacheEpoch: nat, cache: set<nat>)

  datatype State = State(threads: map<Tid, Mutator>, mutators: seq<Tid>, gcLock: Option<Tid>, requested: bool,
    epoch: nat)

  predicate HasGcLock(pc: Pc)
  {
    pc.GotGc? || pc.GcUnblocked? || pc.GcReady? || pc.GcWaiting? || pc.GcStopped? || pc.GcBumped? || pc.GcAlone? ||
      pc.GcDone? || pc.GcLeaving?
    || pc.GotEnd? || pc.EndUnblocked? || pc.Ending?
  }

  predicate IsBlocked(pc: Pc)
  {
    pc.Blocked? || pc.WantGc? || pc.GotGc? || pc.WantEnd? || pc.GotEnd?
  }

  predicate Requesting(pc: Pc)
  {
    pc.GcWaiting? || pc.GcStopped? || pc.GcBumped?
  }

  // ----- steps -----

  datatype Step =
    | Start(t: Tid)          // a thread comes to be
    | Register(t: Tid)       // heapAddMutator
    | CacheWrite(t: Tid)     // managed code fills a lookup-cache entry
    | Poll(t: Tid)
    | PollLeave(t: Tid)
    | EnterBlocked(t: Tid)
    | LeaveBlocked(t: Tid)
    | WantCollect(t: Tid)
    | TakeGcLock(t: Tid)
    | GcUnblock(t: Tid)
    | NotNeeded(t: Tid)
    | CollectAlone(t: Tid)
    | FinishAlone(t: Tid)
    | GcBegin(t: Tid)
    | AllSafe(t: Tid)
    | Bump(t: Tid)
    | GcEnd(t: Tid)
    | ReleaseGcLock(t: Tid)
    | WantToEnd(t: Tid)
    | LeaveList(t: Tid)
    | CheckCache(t: Tid)     // lookupCacheOnGcResume

  ghost predicate At(s: State, t: Tid, pc: Pc)
  {
    t in s.threads && s.threads[t].pc == pc
  }

  /** heapAllSafe. */
  ghost predicate OthersSafe(s: State, t: Tid)
  {
    forall i {:trigger s.mutators[i]} :: 0 <= i < |s.mutators| && s.mutators[i] != t && s.mutators[i] in s.threads ==>
      s.threads[s.mutators[i]].atSafepoint || s.threads[s.mutators[i]].blocked
  }

  ghost predicate Enabled(s: State, step: Step)
  {
    match step
    case Start(t) => t !in s.threads
    case Register(t) => At(s, t, Fresh) && s.gcLock.None?
    case CacheWrite(t) => At(s, t, Managed)
    case Poll(t) => At(s, t, Managed) && s.requested
    case PollLeave(t) => At(s, t, AtPoll) && !s.requested
    case EnterBlocked(t) => At(s, t, Managed)
    case LeaveBlocked(t) => At(s, t, Blocked) && !s.requested
    case WantCollect(t) => At(s, t, Managed)
    case TakeGcLock(t) => (At(s, t, WantGc) || At(s, t, WantEnd)) && s.gcLock.None?
    case GcUnblock(t) => (At(s, t, GotGc) || At(s, t, GotEnd)) && !s.requested
    case NotNeeded(t) => At(s, t, GcReady) && |s.mutators| > 1
    case CollectAlone(t) => At(s, t, GcReady) && |s.mutators| <= 1
    case FinishAlone(t) => At(s, t, GcAlone)
    case GcBegin(t) => At(s, t, GcReady) && |s.mutators| > 1
    case AllSafe(t) => At(s, t, GcWaiting) && OthersSafe(s, t)
    case Bump(t) => At(s, t, GcStopped)
    case GcEnd(t) => At(s, t, GcBumped)
    case ReleaseGcLock(t) => At(s, t, GcLeaving)
    case WantToEnd(t) => At(s, t, Managed)
    case LeaveList(t) => At(s, t, Ending)
    case CheckCache(t) =>
      At(s, t, PollLeft) || At(s, t, BlockLeft) || At(s, t, GcUnblocked) ||
      At(s, t, EndUnblocked) || At(s, t, GcDone)
  }

  function Set(s: State, t: Tid, m: Mutator): State
  {
    s.(threads := s.threads[t := m])
  }

  function Remove(ts: seq<Tid>, t: Tid): seq<Tid>
  {
    if ts == [] then [] else if ts[0] == t then ts[1..] else [ts[0]] + Remove(ts[1..], t)
  }

  /** lookupCacheOnGcResume: flush if a collection has come between. */
  function Checked(m: Mutator, epoch: nat): Mutator
  {
    if m.cacheEpoch != epoch then m.(cacheEpoch := epoch, cache := {}) else m
  }

  function AfterCheck(pc: Pc): Pc
  {
    match pc
    case GcUnblocked => GcReady
    case EndUnblocked => Ending
    case GcDone => GcLeaving
    case _ => Managed
  }

  /** Steps that change nothing but the thread that takes them. */
  predicate IsLocal(step: Step)
  {
    step.CacheWrite? || step.Poll? || step.PollLeave? || step.EnterBlocked? || step.LeaveBlocked? ||
      step.WantCollect? || step.GcUnblock?
    || step.NotNeeded? || step.CollectAlone? || step.AllSafe? || step.WantToEnd? || step.CheckCache?
  }

  function Moved(m: Mutator, step: Step, epoch: nat): Mutator
    requires IsLocal(step)
  {
    match step
    case CacheWrite(_) => m.(cache := m.cache + {epoch})
    case Poll(_) => m.(pc := AtPoll, atSafepoint := true)
    case PollLeave(_) => m.(pc := PollLeft, atSafepoint := false)
    case EnterBlocked(_) => m.(pc := Blocked, blocked := true)
    case LeaveBlocked(_) => m.(pc := BlockLeft, blocked := false)
    case WantCollect(_) => m.(pc := WantGc, blocked := true)
    case GcUnblock(_) => m.(pc := if m.pc.GotGc? then GcUnblocked else EndUnblocked, blocked := false)
    case NotNeeded(_) => m.(pc := GcLeaving)
    case CollectAlone(_) => m.(pc := GcAlone)
    case AllSafe(_) => m.(pc := GcStopped)
    case WantToEnd(_) => m.(pc := WantEnd, blocked := true)
    case CheckCache(_) => Checked(m, epoch).(pc := AfterCheck(m.pc))
  }

  ghost function Do(s: State, step: Step): State
    requires Enabled(s, step)
  {
    var t := step.t;
    if step.Start? then Set(s, t, Mutator(Fresh, false, false, 0, {})) else
    var m := s.threads[t];
    if IsLocal(step) then Set(s, t, Moved(m, step, s.epoch)) else
    match step
    case Register(_) => Set(s, t, m.(pc := Managed)).(mutators := [t] + s.mutators)
    case TakeGcLock(_) => Set(s, t, m.(pc := if m.pc.WantGc? then GotGc else GotEnd)).(gcLock := Some(t))
    case FinishAlone(_) => Set(s, t, m.(pc := GcDone)).(epoch := s.epoch + 1)
    case GcBegin(_) => Set(s, t, m.(pc := GcWaiting)).(requested := true)
    case Bump(_) => Set(s, t, m.(pc := GcBumped)).(epoch := s.epoch + 1)
    case GcEnd(_) => Set(s, t, m.(pc := GcDone)).(requested := false)
    case ReleaseGcLock(_) => Set(s, t, m.(pc := Managed)).(gcLock := None)
    case LeaveList(_) => Set(s, t, m.(pc := Dead)).(gcLock := None, mutators := Remove(s.mutators, t))
  }

  // ----- the invariant -----

  ghost predicate Listed(s: State, t: Tid)
  {
    t in s.mutators
  }

  /** The flags, the lock, the request and the list agree with where the thread is. */
  ghost predicate FlagsOk(s: State, t: Tid)
    requires t in s.threads
  {
    var m := s.threads[t];
    && (m.atSafepoint <==> m.pc.AtPoll?) && (m.blocked <==> IsBlocked(m.pc))
    && (HasGcLock(m.pc) <==> s.gcLock == Some(t))
    && (Requesting(m.pc) ==> s.requested)
    && (Listed(s, t) <==> !m.pc.Fresh? && !m.pc.Dead?)
  }

  ghost predicate CacheOk(m: Mutator, epoch: nat)
  {
    && m.cacheEpoch <= epoch && (forall e {:trigger e in m.cache} :: e in m.cache ==> m.cacheEpoch <= e <= epoch)
    && (m.pc.Managed? || m.pc.GcReady? || m.pc.GcLeaving? ==> forall e {:trigger e in m.cache} ::
      e in m.cache ==> e == epoch)
    && (m.pc.Fresh? ==> m.cache == {})
  }

  /** A thread that collects is alone, or has stopped the others. */
  ghost predicate CollectsOk(s: State, t: Tid)
    requires t in s.threads
  {
    && (s.threads[t].pc.GcAlone? ==> forall u {:trigger Listed(s, u)} :: Listed(s, u) ==> u == t)
    && (s.threads[t].pc.GcStopped? || s.threads[t].pc.GcBumped? ==> Stopped(s, t))
  }

  ghost predicate ThreadOk(s: State, t: Tid)
    requires t in s.threads
  {
    FlagsOk(s, t) && CacheOk(s.threads[t], s.epoch) && CollectsOk(s, t)
  }

  /** Every other listed thread is parked at a poll or inside a blocked region. */
  ghost predicate Stopped(s: State, t: Tid)
  {
    forall u {:trigger Listed(s, u)} ::
      Listed(s, u) && u != t ==> u in s.threads && (s.threads[u].pc.AtPoll? || IsBlocked(s.threads[u].pc))
  }

  ghost predicate Distinct(ts: seq<Tid>)
  {
    forall i, j {:trigger ts[i], ts[j]} :: 0 <= i < j < |ts| ==> ts[i] != ts[j]
  }

  ghost predicate Inv(s: State)
  {
    && (forall t {:trigger s.threads[t]} :: t in s.threads ==> ThreadOk(s, t))
    && (forall t {:trigger Listed(s, t)} :: Listed(s, t) ==> t in s.threads)
    && (s.gcLock.Some? ==> s.gcLock.value in s.threads)
    && (s.requested ==> s.gcLock.Some? && Requesting(s.threads[s.gcLock.value].pc))
    && Distinct(s.mutators)
  }

  lemma {:induction false} RemoveGone(ts: seq<Tid>, t: Tid)
    requires Distinct(ts)
    ensures forall u {:trigger u in Remove(ts, t)} :: u in Remove(ts, t) <==> u in ts && u != t
    ensures Distinct(Remove(ts, t))
  {
    if ts != [] {
      RemoveGone(ts[1..], t);
      var r := Remove(ts[1..], t);
      if ts[0] == t {
        forall u ensures u in ts[1..] <==> u in ts && u != t
          { if u in ts[1..] { var i :| 0 <= i < |ts| - 1 && ts[1..][i] == u; assert ts[i + 1] == u; } }
      } else {
        assert forall u :: u in r ==> u in ts[1..];
        forall u ensures u in [ts[0]] + r <==> u in ts && u != t { assert u in ts <==> u == ts[0] || u in ts[1..]; }
        assert ts[0] !in r by { assert ts[0] !in ts[1..] by { forall i | 0 <= i < |ts| - 1
          ensures ts[1..][i] != ts[0] { assert ts[0] != ts[i + 1]; } } }
      }
    }
  }

  /** Only thread t moves; the list, the lock, the request and the epoch stay. */
  lemma LocalKeeps(s: State, t: Tid, m: Mutator)
    requires Inv(s) && t in s.threads && ThreadOk(Set(s, t, m), t)
    requires HasGcLock(m.pc) <==> HasGcLock(s.threads[t].pc)
    requires Requesting(m.pc) <==> Requesting(s.threads[t].pc)
    requires s.requested ==> m.pc.AtPoll? || IsBlocked(m.pc) || !(s.threads[t].pc.AtPoll? || IsBlocked(s.threads[t].pc))
    ensures Inv(Set(s, t, m))
  {
    var s' := Set(s, t, m);
    forall u | u in s'.threads ensures ThreadOk(s', u) {
      if u != t {
        assert ThreadOk(s, u);
        assert forall v {:trigger Listed(s', v)} :: Listed(s', v) <==> Listed(s, v);
      }
    }
    forall v | Listed(s', v) ensures v in s'.threads { assert Listed(s, v); }
  }

  lemma SameLists(s: State, s': State)
    requires s'.mutators == s.mutators
    ensures forall v {:trigger Listed(s', v)} {:trigger Listed(s, v)} :: Listed(s', v) <==> Listed(s, v)
  {}

  lemma TakeKeeps(s: State, step: Step)
    requires Inv(s) && Enabled(s, step) && step.TakeGcLock?
    ensures Inv(Do(s, step))
  {
    hide Moved, Remove;
    var s' := Do(s, step);
    SameLists(s, s');
    assert ThreadOk(s, step.t);
    forall u | u in s'.threads ensures ThreadOk(s', u) { assert ThreadOk(s, u); }
    forall v | Listed(s', v) ensures v in s'.threads { assert Listed(s, v); }
  }

  lemma ReleaseKeeps(s: State, step: Step)
    requires Inv(s) && Enabled(s, step) && step.ReleaseGcLock?
    ensures Inv(Do(s, step))
  {
    hide Moved, Remove;
    var s' := Do(s, step);
    SameLists(s, s');
    assert ThreadOk(s, step.t);
    forall u | u in s'.threads ensures ThreadOk(s', u) { assert ThreadOk(s, u); }
    forall v | Listed(s', v) ensures v in s'.threads { assert Listed(s, v); }
  }

  lemma RequestIs(s: State, step: Step)
    requires Enabled(s, step) && (step.GcBegin? || step.GcEnd?)
    ensures var t := step.t;
      && t in s.threads && s.threads[t].pc == (if step.GcBegin? then GcReady else GcBumped)
      && Do(s, step) == Set(s, t, s.threads[t].(pc := if step.GcBegin? then GcWaiting else GcDone)).(requested :=
        step.GcBegin?)
  {
    hide OthersSafe, Moved, Remove;
  }

  lemma RequestKeeps(s: State, step: Step)
    requires Inv(s) && Enabled(s, step) && (step.GcBegin? || step.GcEnd?)
    ensures Inv(Do(s, step))
  {
    RequestIs(s, step);
    var s' := Do(s, step);
    SameLists(s, s');
    assert ThreadOk(s, step.t);
    hide Do, Enabled;
    forall u | u in s'.threads ensures ThreadOk(s', u) { assert ThreadOk(s, u); }
    forall v | Listed(s', v) ensures v in s'.threads { assert Listed(s, v); }
  }

  /** A thread that is parked, blocked or not listed does not notice a new epoch. */
  lemma EpochUnseen(m: Mutator, epoch: nat)
    requires CacheOk(m, epoch) && !m.pc.Managed? && !m.pc.GcReady? && !m.pc.GcLeaving?
    ensures CacheOk(m, epoch + 1)
  {}

  lemma EpochThread(s: State, s': State, t: Tid, u: Tid)
    requires Inv(s) && t in s.threads && (s.threads[t].pc.GcStopped? || s.threads[t].pc.GcAlone?) && u in s.threads &&
      u != t
    requires t in s'.threads && s'.threads == s.threads[t := s'.threads[t]] &&
      s' == s.(threads := s'.threads, epoch := s.epoch + 1)
    ensures ThreadOk(s', u)
  {
    SameLists(s, s');
    assert ThreadOk(s, u) && ThreadOk(s, t);
    hide CacheOk, Inv;
    assert Listed(s, u) ==> s.threads[u].pc.AtPoll? || IsBlocked(s.threads[u].pc);
    EpochUnseen(s.threads[u], s.epoch);
  }

  lemma EpochIs(s: State, step: Step)
    requires Enabled(s, step) && (step.Bump? || step.FinishAlone?)
    ensures var t := step.t;
      && t in s.threads && s.threads[t].pc == (if step.Bump? then GcStopped else GcAlone)
      && Do(s, step) == Set(s, t, s.threads[t].(pc := if step.Bump? then GcBumped else GcDone)).(epoch := s.epoch + 1)
  {
    hide OthersSafe, Moved, Remove;
  }

  lemma EpochOwn(s: State, step: Step)
    requires Inv(s) && Enabled(s, step) && (step.Bump? || step.FinishAlone?)
    ensures step.t in Do(s, step).threads && ThreadOk(Do(s, step), step.t)
  {
    EpochIs(s, step);
    assert ThreadOk(s, step.t);
    SameLists(s, Do(s, step));
    EpochUnseen(s.threads[step.t], s.epoch);
    hide Inv, Do, Enabled;
  }

  lemma EpochKeeps(s: State, step: Step)
    requires Inv(s) && Enabled(s, step) && (step.Bump? || step.FinishAlone?)
    ensures Inv(Do(s, step))
  {
    var s' := Do(s, step);
    EpochIs(s, step);
    EpochOwn(s, step);
    SameLists(s, s');
    assert FlagsOk(s, step.t) by { assert ThreadOk(s, step.t); }
    hide ThreadOk, Do, Enabled;
    forall u | u in s'.threads ensures ThreadOk(s', u) {
      if u != step.t { EpochThread(s, s', step.t, u); }
    }
    forall v | Listed(s', v) ensures v in s'.threads { assert Listed(s, v); }
  }

  lemma RegisterKeeps(s: State, step: Step)
    requires Inv(s) && Enabled(s, step) && step.Register?
    ensures Inv(Do(s, step))
  {
    hide Moved, Remove;
    var s', t := Do(s, step), step.t;
    assert ThreadOk(s, t);
    assert t !in s.mutators by { assert !Listed(s, t); }
    assert forall v {:trigger Listed(s', v)} :: Listed(s', v) <==> Listed(s, v) || v == t;
    forall u | u in s'.threads ensures ThreadOk(s', u) { assert ThreadOk(s, u); }
    forall v | Listed(s', v) ensures v in s'.threads { assert v == t || Listed(s, v); }
  }

  lemma LeaveListKeeps(s: State, step: Step)
    requires Inv(s) && Enabled(s, step) && step.LeaveList?
    ensures Inv(Do(s, step))
  {
    hide Moved, Remove;
    var s', t := Do(s, step), step.t;
    assert ThreadOk(s, t);
    RemoveGone(s.mutators, t);
    assert forall v {:trigger Listed(s', v)} :: Listed(s', v) <==> Listed(s, v) && v != t;
    forall u | u in s'.threads ensures ThreadOk(s', u) { assert ThreadOk(s, u); }
    forall v | Listed(s', v) ensures v in s'.threads { assert Listed(s, v); }
  }

  lemma StartKeeps(s: State, step: Step)
    requires Inv(s) && Enabled(s, step) && step.Start?
    ensures Inv(Do(s, step))
  {
    hide Moved, Remove;
    var s' := Do(s, step);
    SameLists(s, s');
    forall u | u in s'.threads ensures ThreadOk(s', u)
      { if u != step.t { assert ThreadOk(s, u); } else { assert !Listed(s, u); } }
    forall v | Listed(s', v) ensures v in s'.threads { assert Listed(s, v); }
  }

  /** The collector sees everyone parked: the list is all the threads there are. */
  lemma SeenSafe(s: State, t: Tid)
    requires Inv(s) && OthersSafe(s, t)
    ensures Stopped(s, t)
  {
    forall u | Listed(s, u) && u != t
      ensures u in s.threads && (s.threads[u].pc.AtPoll? || IsBlocked(s.threads[u].pc)) {
      var i :| 0 <= i < |s.mutators| && s.mutators[i] == u;
      assert ThreadOk(s, u);
    }
  }

  lemma AloneListed(s: State, t: Tid)
    requires Inv(s) && At(s, t, GcReady) && |s.mutators| <= 1
    ensures forall u {:trigger Listed(s, u)} :: Listed(s, u) ==> u == t
  {
    assert ThreadOk(s, t) && Listed(s, t);
    assert s.mutators == [t];
  }

  /** Where a local step starts from. */
  predicate From(pc: Pc, step: Step)
    requires IsLocal(step)
  {
    match step
    case PollLeave(_) => pc.AtPoll?
    case LeaveBlocked(_) => pc.Blocked?
    case GcUnblock(_) => pc.GotGc? || pc.GotEnd?
    case NotNeeded(_) => pc.GcReady?
    case CollectAlone(_) => pc.GcReady?
    case AllSafe(_) => pc.GcWaiting?
    case CheckCache(_) => pc.PollLeft? || pc.BlockLeft? || pc.GcUnblocked? || pc.EndUnblocked? || pc.GcDone?
    case _ => pc.Managed?
  }

  lemma LocalFrom(s: State, step: Step)
    requires Enabled(s, step) && IsLocal(step)
    ensures step.t in s.threads && From(s.threads[step.t].pc, step)
    ensures s.requested ==> !step.PollLeave? && !step.LeaveBlocked? && !step.GcUnblock?
  {
    hide OthersSafe;
  }

  lemma MovedFlags(m: Mutator, step: Step, epoch: nat)
    requires IsLocal(step) && From(m.pc, step) && (m.atSafepoint <==> m.pc.AtPoll?) && (m.blocked <==> IsBlocked(m.pc))
    ensures var m' := Moved(m, step, epoch);
      && (m'.atSafepoint <==> m'.pc.AtPoll?) && (m'.blocked <==> IsBlocked(m'.pc))
      && (HasGcLock(m'.pc) <==> HasGcLock(m.pc)) && (Requesting(m'.pc) <==> Requesting(m.pc))
      && !m.pc.Fresh? && !m.pc.Dead? && !m'.pc.Fresh? && !m'.pc.Dead?
  {}

  /** A local step neither takes nor drops the lock or the request, and nobody leaves a safe
      place while a request is up. */
  lemma LocalMoves(s: State, step: Step)
    requires Inv(s) && Enabled(s, step) && IsLocal(step)
    ensures var m, m' := s.threads[step.t], Moved(s.threads[step.t], step, s.epoch);
      (HasGcLock(m'.pc) <==> HasGcLock(m.pc)) && (Requesting(m'.pc) <==> Requesting(m.pc))
    ensures var m, m' := s.threads[step.t], Moved(s.threads[step.t], step, s.epoch);
      s.requested ==> m'.pc.AtPoll? || IsBlocked(m'.pc) || !(m.pc.AtPoll? || IsBlocked(m.pc))
  {
    assert ThreadOk(s, step.t);
    LocalFrom(s, step);
    MovedFlags(s.threads[step.t], step, s.epoch);
    hide Inv, ThreadOk, Enabled, Moved, HasGcLock, Requesting;
  }

  lemma LocalFlags(s: State, step: Step)
    requires Inv(s) && Enabled(s, step) && IsLocal(step)
    ensures FlagsOk(Set(s, step.t, Moved(s.threads[step.t], step, s.epoch)), step.t)
  {
    SameLists(s, Set(s, step.t, Moved(s.threads[step.t], step, s.epoch)));
    assert ThreadOk(s, step.t);
    LocalFrom(s, step);
    MovedFlags(s.threads[step.t], step, s.epoch);
    hide Inv, Enabled, Moved, Listed, CacheOk, CollectsOk, HasGcLock, Requesting, From;
  }

  lemma LocalCache(s: State, step: Step)
    requires Inv(s) && Enabled(s, step) && IsLocal(step)
    ensures CacheOk(Moved(s.threads[step.t], step, s.epoch), s.epoch)
  {
    assert ThreadOk(s, step.t);
    hide Inv, OthersSafe, Listed, FlagsOk, CollectsOk;
  }

  lemma LocalThreadOk(s: State, step: Step)
    requires Inv(s) && Enabled(s, step) && IsLocal(step)
    ensures ThreadOk(Set(s, step.t, Moved(s.threads[step.t], step, s.epoch)), step.t)
  {
    var t := step.t;
    SameLists(s, Set(s, t, Moved(s.threads[t], step, s.epoch)));
    LocalFlags(s, step);
    LocalCache(s, step);
    if step.AllSafe? { SeenSafe(s, t); }
    if step.CollectAlone? { AloneListed(s, t); }
    assert CollectsOk(s, t) by { assert ThreadOk(s, t); }
    hide Inv, OthersSafe, Listed, FlagsOk, CacheOk;
  }

  lemma LocalStepKeeps(s: State, step: Step)
    requires Inv(s) && Enabled(s, step) && IsLocal(step)
    ensures Inv(Do(s, step))
  {
    LocalThreadOk(s, step);
    LocalMoves(s, step);
    hide Inv, ThreadOk, Moved, HasGcLock, Requesting, IsBlocked;
    LocalKeeps(s, step.t, Moved(s.threads[step.t], step, s.epoch));
  }

  lemma StepKeeps(s: State, step: Step)
    requires Inv(s) && Enabled(s, step)
    ensures Inv(Do(s, step))
  {
    hide Inv, Enabled, Do;
    match step
    case Start(_) => StartKeeps(s, step);
    case Register(_) => RegisterKeeps(s, step);
    case LeaveList(_) => LeaveListKeeps(s, step);
    case TakeGcLock(_) => TakeKeeps(s, step);
    case ReleaseGcLock(_) => ReleaseKeeps(s, step);
    case GcBegin(_) => RequestKeeps(s, step);
    case GcEnd(_) => RequestKeeps(s, step);
    case Bump(_) => EpochKeeps(s, step);
    case FinishAlone(_) => EpochKeeps(s, step);
    case _ => LocalStepKeeps(s, step);
  }

  // ----- runs -----

  ghost predicate Init(s: State)
  {
    s.threads == map[] && s.mutators == [] && s.gcLock.None? && !s.requested
  }

  ghost predicate Runs(s: State, steps: seq<Step>, t: State)
    decreases |steps|
  {
    if steps == [] then t == s else Enabled(s, steps[0]) && Runs(Do(s, steps[0]), steps[1..], t)
  }

  ghost predicate Reachable(t: State)
  {
    exists s: State, steps: seq<Step> :: Init(s) && Runs(s, steps, t)
  }

  lemma {:induction false} RunKeeps(s: State, steps: seq<Step>, t: State)
    requires Inv(s) && Runs(s, steps, t)
    ensures Inv(t)
    decreases |steps|
  {
    hide Inv, Enabled, Do;
    if steps != [] {
      StepKeeps(s, steps[0]);
      RunKeeps(Do(s, steps[0]), steps[1..], t);
    }
  }

  lemma ReachableInv(t: State)
    requires Reachable(t)
    ensures Inv(t)
  {
    var s: State, steps: seq<Step> :| Init(s) && Runs(s, steps, t);
    assert Inv(s);
    hide Inv, Runs;
    RunKeeps(s, steps, t);
  }

  /** The collector is between the return of heapGcBegin and heapGcEnd, or collects alone. */
  predicate Collecting(pc: Pc)
  {
    pc.GcStopped? || pc.GcBumped? || pc.GcAlone?
  }

  /** While a thread collects, no other registered thread runs managed code, none is about to,
      and no second thread collects. */
  lemma CollectorRunsAlone(s: State, t: Tid, u: Tid)
    requires Reachable(s) && t in s.threads && Collecting(s.threads[t].pc) && u in s.threads && u != t
    ensures !s.threads[u].pc.Managed? && !Collecting(s.threads[u].pc)
    ensures Listed(s, u) ==> s.threads[u].pc.AtPoll? || IsBlocked(s.threads[u].pc)
  {
    ReachableInv(s);
    hide Reachable;
    assert ThreadOk(s, t) && ThreadOk(s, u);
  }

  /** A step that keeps the list and, by another thread, the collector and the collection. */
  ghost predicate Freezes(s: State, t: Tid, step: Step)
    requires t in s.threads && Enabled(s, step)
  {
    var after := Do(s, step);
    && after.mutators == s.mutators
    && (step.t != t ==>
      t in after.threads && after.threads[t] == s.threads[t] &&
      after.epoch == s.epoch && after.requested == s.requested)
  }

  lemma LocalFreezes(s: State, t: Tid, step: Step)
    requires t in s.threads && Enabled(s, step) && (IsLocal(step) || step.Start?)
    ensures Freezes(s, t, step)
  {
    hide Moved, OthersSafe, HasGcLock, Requesting, IsBlocked;
  }

  lemma SharedFreezes(s: State, t: Tid, step: Step)
    requires Inv(s) && t in s.threads && Collecting(s.threads[t].pc)
    requires Enabled(s, step) && !IsLocal(step) && !step.Start?
    ensures Freezes(s, t, step)
  {
    assert ThreadOk(s, t) && ThreadOk(s, step.t);
    hide Inv, ThreadOk, Moved, OthersSafe, Remove, HasGcLock, Requesting, IsBlocked;
  }

  /** Nor does the list of mutators change until the collector is done, whatever the step; and
      a step by anyone else leaves the collector collecting. */
  lemma ListFrozenDuringCollection(s: State, t: Tid, step: Step)
    requires Reachable(s) && t in s.threads && Collecting(s.threads[t].pc) && Enabled(s, step)
    ensures Do(s, step).mutators == s.mutators
    ensures step.t != t ==>
      t in Do(s, step).threads && Do(s, step).threads[t] == s.threads[t] &&
      Do(s, step).epoch == s.epoch && Do(s, step).requested == s.requested
  {
    ReachableInv(s);
    hide Reachable, Inv, Enabled, Do;
    if IsLocal(step) || step.Start? { LocalFreezes(s, t, step); } else { SharedFreezes(s, t, step); }
  }

  /** A thread running managed code has a lookup cache written entirely since the last
      collection. */
  lemma CacheHoldsOnlyCurrentEntries(s: State, t: Tid, e: nat)
    requires Reachable(s) && At(s, t, Managed) && e in s.threads[t].cache
    ensures e == s.epoch
  {
    ReachableInv(s);
    hide Reachable;
    assert ThreadOk(s, t);
  }

  /** Once checked against the epoch, a cache loses nothing until the next collection, and has what
      managed code puts in. */
  lemma CacheKeptWithinEpoch(s: State, t: Tid, step: Step)
    requires Enabled(s, step) && t in s.threads && Do(s, step).epoch == s.epoch
    requires s.threads[t].cacheEpoch == s.epoch || step == CheckCache(t)
    ensures t in Do(s, step).threads && Do(s, step).threads[t].cacheEpoch == s.epoch
    ensures s.threads[t].cacheEpoch == s.epoch ==> s.threads[t].cache <= Do(s, step).threads[t].cache
    ensures step == CacheWrite(t) ==> s.epoch in Do(s, step).threads[t].cache
  {
    hide OthersSafe, Remove;
  }

  // ----- nobody waits for ever on nobody -----

  ghost predicate CanStep(s: State, t: Tid)
  {
    t in s.threads && exists step: Step :: step.t == t && Enabled(s, step)
  }

  /** One step that the thread could take now, if there is one. */
  function Offered(pc: Pc, t: Tid, alone: bool): Step
  {
    match pc
    case Fresh => Register(t)
    case Managed => EnterBlocked(t)
    case AtPoll => PollLeave(t)
    case Blocked => LeaveBlocked(t)
    case WantGc => TakeGcLock(t)
    case WantEnd => TakeGcLock(t)
    case GotGc => GcUnblock(t)
    case GotEnd => GcUnblock(t)
    case GcReady => if alone then CollectAlone(t) else GcBegin(t)
    case GcWaiting => AllSafe(t)
    case GcStopped => Bump(t)
    case GcBumped => GcEnd(t)
    case GcAlone => FinishAlone(t)
    case GcLeaving => ReleaseGcLock(t)
    case Ending => LeaveList(t)
    case _ => CheckCache(t)
  }

  lemma Steps(s: State, t: Tid)
    requires t in s.threads && Enabled(s, Offered(s.threads[t].pc, t, |s.mutators| <= 1))
    ensures CanStep(s, t)
  {
    assert Offered(s.threads[t].pc, t, |s.mutators| <= 1).t == t;
  }

  /** A thread without the lock, not parked and not blocked, is on its way in managed code. */
  lemma AwakeSteps(s: State, t: Tid)
    requires Inv(s) && Listed(s, t) && t in s.threads && s.gcLock != Some(t)
    requires !s.threads[t].atSafepoint && !s.threads[t].blocked
    ensures CanStep(s, t)
  {
    assert ThreadOk(s, t);
    Steps(s, t);
  }

  lemma LockedSteps(s: State, h: Tid)
    requires Inv(s) && s.gcLock == Some(h) && (At(s, h, GcWaiting) ==> OthersSafe(s, h))
    ensures CanStep(s, h)
  {
    assert ThreadOk(s, h);
    hide OthersSafe, CacheOk, CollectsOk, CanStep;
    Steps(s, h);
  }

  /** The holder of gcLock can go on, or waits for a thread that can. */
  lemma HolderSteps(s: State)
    requires Inv(s) && s.gcLock.Some?
    ensures CanStep(s, s.gcLock.value) || exists u {:trigger Listed(s, u)} ::
      Listed(s, u) && u != s.gcLock.value && CanStep(s, u) && u in s.threads && !s.threads[u].atSafepoint &&
      !s.threads[u].blocked
  {
    var h := s.gcLock.value;
    assert ThreadOk(s, h);
    hide Inv, ThreadOk, CanStep;
    if At(s, h, GcWaiting) && !OthersSafe(s, h) {
      var i :| 0 <= i < |s.mutators| && s.mutators[i] != h && s.mutators[i] in s.threads &&
        !s.threads[s.mutators[i]].atSafepoint && !s.threads[s.mutators[i]].blocked;
      assert Listed(s, s.mutators[i]);
      AwakeSteps(s, s.mutators[i]);
    } else {
      LockedSteps(s, h);
    }
  }

  /** The handshake does not deadlock: a thread that has not ended can go on, or another holds
      gcLock, which can go on itself or waits for a thread that is neither parked nor blocked and
      can. */
  lemma NeverStuck(s: State, t: Tid)
    requires Reachable(s) && t in s.threads && !At(s, t, Dead)
    ensures CanStep(s, t) || (s.gcLock.Some? && (CanStep(s, s.gcLock.value) || exists u {:trigger Listed(s, u)} ::
      Listed(s, u) && u != s.gcLock.value && CanStep(s, u) && u in s.threads && !s.threads[u].atSafepoint &&
      !s.threads[u].blocked))
  {
    hide Reachable;
    ReachableInv(s);
    assert ThreadOk(s, t);
    if s.gcLock.Some? { HolderSteps(s); } else { Steps(s, t); }
  }
}
