/** What each thread does, in its own order (vm/memory/Heap.c:104-228, 534-560): whatever the others do
    meanwhile, a thread's own steps are its registration, then complete rounds of managed code, polls,
    blocked regions and collections, and at last its end. */
module SafepointProgram {
  import opened Safepoint

  /** What a thread does between two times in managed code; Leave is its last. */
  datatype Round = Write | Park | Block | Skip | Alone | Stopping | Leave

  /** The steps of a round: managed code fills a cache entry; heapGcPoll with a request up; a blocked
      region; heapCollectYoung when a peer has made room, as the only mutator, and with the world
      stopped; heapEndMutator. */
  function Script(r: Round, t: Tid): seq<Step>
  {
    match r
    case Write => [CacheWrite(t)]
    case Park => [Poll(t), PollLeave(t), CheckCache(t)]
    case Block => [EnterBlocked(t), LeaveBlocked(t), CheckCache(t)]
    case Skip => [WantCollect(t), TakeGcLock(t), GcUnblock(t), CheckCache(t), NotNeeded(t), ReleaseGcLock(t)]
    case Alone => [WantCollect(t), TakeGcLock(t), GcUnblock(t), CheckCache(t), CollectAlone(t), FinishAlone(t),
      CheckCache(t), ReleaseGcLock(t)]
    case Stopping => [WantCollect(t), TakeGcLock(t), GcUnblock(t), CheckCache(t), GcBegin(t), AllSafe(t), Bump(t),
      GcEnd(t), CheckCache(t), ReleaseGcLock(t)]
    case Leave => [WantToEnd(t), TakeGcLock(t), GcUnblock(t), CheckCache(t), LeaveList(t)]
  }

  /** Where the thread is before each step of the round, and after the last. */
  function Places(r: Round): seq<Pc>
  {
    match r
    case Write => [Managed, Managed]
    case Park => [Managed, AtPoll, PollLeft, Managed]
    case Block => [Managed, Blocked, BlockLeft, Managed]
    case Skip => [Managed, WantGc, GotGc, GcUnblocked, GcReady, GcLeaving, Managed]
    case Alone => [Managed, WantGc, GotGc, GcUnblocked, GcReady, GcAlone, GcDone, GcLeaving, Managed]
    case Stopping => [Managed, WantGc, GotGc, GcUnblocked, GcReady, GcWaiting, GcStopped, GcBumped, GcDone, GcLeaving,
      Managed]
    case Leave => [Managed, WantEnd, GotEnd, EndUnblocked, Ending, Dead]
  }

  function Rounds(rs: seq<Round>, t: Tid): seq<Step>
  {
    if rs == [] then [] else Rounds(rs[..|rs| - 1], t) + Script(rs[|rs| - 1], t)
  }

  /** The thread's own steps of a run. */
  function Own(steps: seq<Step>, t: Tid): seq<Step>
  {
    if steps == [] then [] else (if steps[0].t == t then [steps[0]] else []) + Own(steps[1..], t)
  }

  /** Whole rounds rs, then the first k steps of round r; only the last round of all is Leave. */
  ghost predicate Midway(own: seq<Step>, t: Tid, pc: Pc, rs: seq<Round>, r: Round, k: nat)
  {
    && Leave !in rs && k <= |Script(r, t)| && (k == |Script(r, t)| ==> r == Leave)
    && own == [Start(t), Register(t)] + Rounds(rs, t) + Script(r, t)[..k]
    && pc == Places(r)[k]
  }

  ghost predicate Lives(s: State, own: seq<Step>, t: Tid)
  {
    if t !in s.threads then own == []
    else if s.threads[t].pc == Fresh then own == [Start(t)]
    else exists rs, r, k: nat {:trigger Midway(own, t, s.threads[t].pc, rs, r, k)} ::
      Midway(own, t, s.threads[t].pc, rs, r, k)
  }

  // ----- one step -----

  lemma OthersStay(s: State, step: Step, t: Tid)
    requires Enabled(s, step) && step.t != t
    ensures (t in Do(s, step).threads <==> t in s.threads) &&
      (t in s.threads ==> Do(s, step).threads[t] == s.threads[t])
  {
    hide Moved, OthersSafe, Remove;
  }

  /** The place a step is taken from, and the one it leads to. */
  predicate Fits(pc: Pc, step: Step)
  {
    match step
    case Start(_) => false
    case Register(_) => pc.Fresh?
    case PollLeave(_) => pc.AtPoll?
    case LeaveBlocked(_) => pc.Blocked?
    case TakeGcLock(_) => pc.WantGc? || pc.WantEnd?
    case GcUnblock(_) => pc.GotGc? || pc.GotEnd?
    case NotNeeded(_) => pc.GcReady?
    case CollectAlone(_) => pc.GcReady?
    case FinishAlone(_) => pc.GcAlone?
    case GcBegin(_) => pc.GcReady?
    case AllSafe(_) => pc.GcWaiting?
    case Bump(_) => pc.GcStopped?
    case GcEnd(_) => pc.GcBumped?
    case ReleaseGcLock(_) => pc.GcLeaving?
    case LeaveList(_) => pc.Ending?
    case CheckCache(_) => pc.PollLeft? || pc.BlockLeft? || pc.GcUnblocked? || pc.EndUnblocked? || pc.GcDone?
    case _ => pc.Managed?
  }

  function NextPc(pc: Pc, step: Step): Pc
  {
    match step
    case Start(_) => Fresh
    case Poll(_) => AtPoll
    case PollLeave(_) => PollLeft
    case EnterBlocked(_) => Blocked
    case LeaveBlocked(_) => BlockLeft
    case WantCollect(_) => WantGc
    case TakeGcLock(_) => if pc.WantGc? then GotGc else GotEnd
    case GcUnblock(_) => if pc.GotGc? then GcUnblocked else EndUnblocked
    case NotNeeded(_) => GcLeaving
    case CollectAlone(_) => GcAlone
    case FinishAlone(_) => GcDone
    case GcBegin(_) => GcWaiting
    case AllSafe(_) => GcStopped
    case Bump(_) => GcBumped
    case GcEnd(_) => GcDone
    case WantToEnd(_) => WantEnd
    case LeaveList(_) => Dead
    case CheckCache(_) => AfterCheck(pc)
    case _ => Managed
  }

  lemma StepPc(s: State, step: Step)
    requires Enabled(s, step) && step.t in s.threads
    ensures Fits(s.threads[step.t].pc, step) && step.t in Do(s, step).threads
    ensures Do(s, step).threads[step.t].pc == NextPc(s.threads[step.t].pc, step)
  {
    hide OthersSafe, Remove;
  }

  /** The step is the next of round r', which has begun as round r has, and leads to its next place. */
  ghost predicate GoesOn(r: Round, k: nat, step: Step, pc: Pc, r': Round)
  {
    && k < |Script(r', step.t)| && k <= |Script(r, step.t)| && Script(r', step.t)[..k] == Script(r, step.t)[..k]
    && Script(r', step.t)[k] == step && Places(r')[k + 1] == pc
  }

  function Begun(step: Step): Round
  {
    if step.CacheWrite? then Write else if step.Poll? then Park else if step.EnterBlocked? then Block
      else if step.WantCollect? then Skip else Leave
  }

  function Decided(step: Step): Round
  {
    if step.NotNeeded? then Skip else if step.CollectAlone? then Alone else Stopping
  }

  /** Only in managed code, and with the lock in hand, does a thread choose. */
  function Chosen(r: Round, k: nat, step: Step): Round
  {
    if k == 0 then Begun(step) else if k == 4 && r != Leave then Decided(step) else r
  }

  predicate IsCollection(r: Round)
  {
    r == Skip || r == Alone || r == Stopping
  }

  lemma BeginGoes(r: Round, step: Step)
    requires Fits(Managed, step)
    ensures GoesOn(r, 0, step, NextPc(Managed, step), Begun(step))
  {
    assert Script(r, step.t)[..0] == [] == Script(Begun(step), step.t)[..0];
  }

  lemma ShortGoes(r: Round, k: nat, step: Step)
    requires 0 < k < |Script(r, step.t)| && Fits(Places(r)[k], step) && (r == Park || r == Block || r == Leave)
    ensures GoesOn(r, k, step, NextPc(Places(r)[k], step), r)
  {
  }

  lemma LockGoes(r: Round, k: nat, step: Step)
    requires 0 < k < 4 && IsCollection(r) && Fits(Places(r)[k], step)
    ensures GoesOn(r, k, step, NextPc(Places(r)[k], step), r)
  {
  }

  lemma DecideGoes(r: Round, step: Step)
    requires IsCollection(r) && Fits(GcReady, step)
    ensures GoesOn(r, 4, step, NextPc(GcReady, step), Decided(step))
  {
    var a, b := Script(r, step.t), Script(Decided(step), step.t);
    assert a[..4] == [WantCollect(step.t), TakeGcLock(step.t), GcUnblock(step.t), CheckCache(step.t)] == b[..4];
  }

  lemma GcGoes(r: Round, k: nat, step: Step)
    requires IsCollection(r) && 4 < k < |Script(r, step.t)| && Fits(Places(r)[k], step)
    ensures GoesOn(r, k, step, NextPc(Places(r)[k], step), r)
  {
  }

  lemma RoundKinds(r: Round, t: Tid, k: nat)
    requires k < |Script(r, t)|
    ensures k == 0 || r == Park || r == Block || r == Leave || IsCollection(r)
    ensures k == 0 ==> Places(r)[k] == Managed
    ensures k == 4 && IsCollection(r) ==> Places(r)[k] == GcReady
    ensures k == 4 && r != Leave ==> IsCollection(r)
  {
  }

  lemma OwnGoes(r: Round, k: nat, step: Step)
    requires k < |Script(r, step.t)| && k < |Places(r)| && Fits(Places(r)[k], step)
    ensures GoesOn(r, k, step, NextPc(Places(r)[k], step), Chosen(r, k, step))
  {
    hide Script, Places, Fits, NextPc, GoesOn, Begun, Decided;
    RoundKinds(r, step.t, k);
    if k == 0 {
      BeginGoes(r, step);
    } else if !IsCollection(r) {
      ShortGoes(r, k, step);
    } else if k == 4 {
      DecideGoes(r, step);
    } else if k < 4 {
      LockGoes(r, k, step);
    } else {
      GcGoes(r, k, step);
    }
  }

  lemma DeadStays(step: Step)
    ensures !Fits(Dead, step)
  {
  }

  lemma ScriptOnly(r: Round, t: Tid)
    ensures |Places(r)| == |Script(r, t)| + 1 && Script(r, t) != [] && Places(r)[0] == Managed
    ensures r != Leave ==> Places(r)[|Script(r, t)|] == Managed
    ensures r == Leave ==> Places(r)[|Script(r, t)|] == Dead
  {
  }

  lemma RoundDone(rs: seq<Round>, r: Round, t: Tid)
    ensures Rounds(rs + [r], t) == Rounds(rs, t) + Script(r, t)
  {
    assert (rs + [r])[..|rs|] == rs;
  }

  lemma MidwayOn(own: seq<Step>, t: Tid, pc: Pc, rs: seq<Round>, r: Round, k: nat, step: Step, pc': Pc, r': Round)
    requires Midway(own, t, pc, rs, r, k) && step.t == t && GoesOn(r, k, step, pc', r')
    ensures exists rs', q, j: nat {:trigger Midway(own + [step], t, pc', rs', q, j)} ::
      Midway(own + [step], t, pc', rs', q, j)
  {
    hide Script, Places, Rounds;
    var sc, head := Script(r', t), [Start(t), Register(t)];
    ScriptOnly(r', t);
    ScriptOnly(Write, t);
    assert sc[..k + 1] == sc[..k] + [step];
    assert own + [step] == head + Rounds(rs, t) + sc[..k + 1];
    if k + 1 == |sc| && r' != Leave {
      RoundDone(rs, r', t);
      assert sc[..k + 1] == sc;
      assert own + [step] == head + Rounds(rs + [r'], t) + Script(Write, t)[..0];
      assert Midway(own + [step], t, pc', rs + [r'], Write, 0);
    } else {
      assert Midway(own + [step], t, pc', rs, r', k + 1);
    }
  }

  lemma LivesOn(s: State, own: seq<Step>, t: Tid, step: Step)
    requires Lives(s, own, t) && Enabled(s, step)
    ensures Lives(Do(s, step), own + Own([step], t), t)
  {
    OwnOne(step, t);
    if step.t != t {
      OthersStay(s, step, t);
      assert own + [] == own;
    } else if step.Start? {
      assert own + [step] == [Start(t)];
    } else if s.threads[t].pc == Fresh {
      FreshRegisters(s, step, t);
      assert own + [step] == [Start(t), Register(t)] + Rounds([], t) + Script(Write, t)[..0];
      assert Midway(own + [step], t, Managed, [], Write, 0);
    } else {
      hide Enabled, Do, Script, Places, Fits, NextPc;
      var rs, r, k: nat :| Midway(own, t, s.threads[t].pc, rs, r, k);
      StepPc(s, step);
      ScriptOnly(r, t);
      DeadStays(step);
      OwnGoes(r, k, step);
      NotFresh(Chosen(r, k, step), k + 1, t);
      MidwayOn(own, t, s.threads[t].pc, rs, r, k, step, Do(s, step).threads[t].pc, Chosen(r, k, step));
    }
  }

  lemma OwnOne(step: Step, t: Tid)
    ensures Own([step], t) == if step.t == t then [step] else []
  {
    assert [step][1..] == [];
  }

  lemma NotFresh(r: Round, k: nat, t: Tid)
    requires k <= |Script(r, t)|
    ensures k < |Places(r)| && Places(r)[k] != Fresh
  {
  }

  lemma FreshRegisters(s: State, step: Step, t: Tid)
    requires Enabled(s, step) && step.t == t && At(s, t, Fresh)
    ensures step == Register(t) && At(Do(s, step), t, Managed)
  {
    hide OthersSafe, Remove;
  }

  // ----- runs -----

  lemma {:induction false} LivesThrough(s: State, own: seq<Step>, t: Tid, steps: seq<Step>, u: State)
    requires Lives(s, own, t) && Runs(s, steps, u)
    ensures Lives(u, own + Own(steps, t), t)
    decreases |steps|
  {
    hide Lives, Enabled, Do;
    if steps == [] {
      assert own + [] == own;
    } else {
      LivesOn(s, own, t, steps[0]);
      OwnOne(steps[0], t);
      LivesThrough(Do(s, steps[0]), own + Own([steps[0]], t), t, steps[1..], u);
      assert own + Own([steps[0]], t) + Own(steps[1..], t) == own + Own(steps, t);
    }
  }

  /** In every run every thread keeps to its program, and where it is tells how far it has come. */
  lemma KeepsToProgram(s: State, steps: seq<Step>, u: State, t: Tid)
    requires Init(s) && Runs(s, steps, u)
    ensures Lives(u, Own(steps, t), t)
  {
    hide Runs;
    assert Lives(s, [], t);
    LivesThrough(s, [], t, steps, u);
    assert [] + Own(steps, t) == Own(steps, t);
  }

  lemma ManagedStart(r: Round, k: nat, t: Tid)
    requires k <= |Script(r, t)| && (k == |Script(r, t)| ==> r == Leave)
    ensures k < |Places(r)| && (Places(r)[k] == Managed ==> k == 0)
  {
  }

  /** Back in managed code a thread has whole rounds behind it: every collection it asked for was
      done, alone or with the world stopped, or found not needed; and it has not asked to end. */
  lemma BackInManaged(s: State, steps: seq<Step>, u: State, t: Tid) returns (rs: seq<Round>)
    requires Init(s) && Runs(s, steps, u) && At(u, t, Managed)
    ensures Leave !in rs && Own(steps, t) == [Start(t), Register(t)] + Rounds(rs, t)
  {
    hide Runs, Script, Places, Rounds;
    KeepsToProgram(s, steps, u, t);
    var own := Own(steps, t);
    var qs, r, k: nat :| Midway(own, t, Managed, qs, r, k);
    ManagedStart(r, k, t);
    rs := qs;
    assert Script(r, t)[..0] == [];
  }

  predicate IsEnding(pc: Pc)
  {
    pc.WantEnd? || pc.GotEnd? || pc.EndUnblocked? || pc.Ending? || pc.Dead?
  }

  lemma EndingPart(r: Round, k: nat, t: Tid)
    requires k <= |Script(r, t)| && (k == |Script(r, t)| ==> r == Leave)
    ensures k < |Places(r)| && (IsEnding(Places(r)[k]) <==> WantToEnd(t) in Script(r, t)[..k])
    ensures r != Leave ==> WantToEnd(t) !in Script(r, t)
  {
    if r == Leave && k > 0 { assert Script(r, t)[..k][0] == WantToEnd(t); }
    if r == Leave && k == 0 { assert Script(r, t)[..0] == []; }
  }

  lemma {:induction false} NoEndingRounds(rs: seq<Round>, t: Tid)
    requires Leave !in rs
    ensures WantToEnd(t) !in Rounds(rs, t)
  {
    if rs != [] {
      var r := rs[|rs| - 1];
      NoEndingRounds(rs[..|rs| - 1], t);
      EndingPart(r, 0, t);
      hide Script;
    }
  }

  lemma {:induction false} OwnSteps(steps: seq<Step>, t: Tid, e: Step)
    requires e.t == t
    ensures e in Own(steps, t) <==> e in steps
  {
    if steps != [] { OwnSteps(steps[1..], t, e); }
  }

  /** A thread is on its way out exactly if it has asked to end: nothing else takes it off the list,
      and once it has asked it neither runs managed code nor collects again. */
  lemma EndsIffAsked(s: State, steps: seq<Step>, u: State, t: Tid)
    requires Init(s) && Runs(s, steps, u)
    ensures t in u.threads && IsEnding(u.threads[t].pc) <==> WantToEnd(t) in steps
  {
    hide Runs, Rounds;
    KeepsToProgram(s, steps, u, t);
    var own := Own(steps, t);
    OwnSteps(steps, t, WantToEnd(t));
    if t in u.threads && u.threads[t].pc != Fresh {
      var rs, r, k: nat :| Midway(own, t, u.threads[t].pc, rs, r, k);
      EndingPart(r, k, t);
      NoEndingRounds(rs, t);
      hide Script, Places;
    }
  }

  /** So a registered thread is off the list only if it asked to end. */
  lemma UnlistedAsked(s: State, steps: seq<Step>, u: State, t: Tid)
    requires Init(s) && Runs(s, steps, u) && Register(t) in steps && !Listed(u, t)
    ensures WantToEnd(t) in steps && At(u, t, Dead)
  {
    assert Reachable(u);
    ReachableInv(u);
    hide Runs, Reachable, Rounds, Script, Places;
    KeepsToProgram(s, steps, u, t);
    OwnSteps(steps, t, Register(t));
    assert ThreadOk(u, t);
    EndsIffAsked(s, steps, u, t);
  }

  // ----- collections -----

  predicate Collects(step: Step)
  {
    step.FinishAlone? || step.Bump?
  }

  ghost function Collections(steps: seq<Step>): nat
  {
    if steps == [] then 0 else (if Collects(steps[0]) then 1 else 0) + Collections(steps[1..])
  }

  lemma StepEpoch(s: State, step: Step)
    requires Enabled(s, step)
    ensures Do(s, step).epoch == s.epoch + if Collects(step) then 1 else 0
  {
    hide Moved, OthersSafe, Remove;
  }

  /** The epoch counts the collections, one for every round of one. */
  lemma {:induction false} EpochCounts(s: State, steps: seq<Step>, u: State)
    requires Runs(s, steps, u)
    ensures u.epoch == s.epoch + Collections(steps)
    decreases |steps|
  {
    hide Enabled, Do, Collects;
    if steps != [] {
      StepEpoch(s, steps[0]);
      EpochCounts(Do(s, steps[0]), steps[1..], u);
    }
  }
}
