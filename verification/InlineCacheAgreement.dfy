/** When what the inline caches hold is what uncached method lookup gives: exactly as long as
    no handler publishes an outdated pair and no retirement is lost to a growing pic. */
module InlineCacheAgreement {
  import opened InlineCache
  import opened InlineCacheInvariant
  import opened InlineCacheRuns

  /** The walk has not looked at cell i yet. */
  ghost predicate Between(w: Walk)
  {
    w.Walking? || w.WalkCounting? || w.WalkAdding?
  }

  /** The walk will still visit cell i and find target there, or has found it and is about to
      retire the cell. */
  ghost predicate Pending(s: World, i: nat, target: nat)
  {
    && !s.walk.NoWalk? && s.walk.entry == target
    && (i > s.walk.i || (i == s.walk.i &&
      (Between(s.walk) || (Known(s.store, s.walk.seen) && Hits(At(s.store.memory, s.walk.seen), target)))))
  }

  ghost predicate WayAgrees(s: World, i: nat, w: Way)
    requires i < |s.store.selectors|
  {
    w.target == s.lookup(w.class_, s.store.selectors[i]) || Pending(s, i, w.target)
  }

  ghost predicate CellAgrees(s: World, i: nat)
    requires i < |s.store.cells| && i < |s.store.selectors|
  {
    && Known(s.store, s.store.cells[i])
    && forall k {:trigger Entries(At(s.store.memory, s.store.cells[i]))[k]} ::
      0 <= k < |Entries(At(s.store.memory, s.store.cells[i]))| ==>
      WayAgrees(s, i, Entries(At(s.store.memory, s.store.cells[i]))[k])
  }

  /** Every cached pair is what uncached lookup gives, or about to be retired. */
  ghost predicate Agree(s: World)
  {
    |s.store.cells| == |s.store.selectors| && forall i {:trigger s.store.cells[i]} ::
      0 <= i < |s.store.cells| ==> CellAgrees(s, i)
  }

  /** During a walk lookup no longer gives the old entry. */
  ghost predicate Superseded(s: World)
  {
    s.walk.NoWalk? || forall c, n {:trigger s.lookup(c, n)} :: s.lookup(c, n) != s.walk.entry
  }

  /** The two ways a step can break the agreement: a publish of a pair that lookup no longer
      gives, and a retirement whose compare-and-swap is lost to a handler that kept the old
      pair in a larger pic. */
  ghost predicate Harmless(s: World, act: Act)
    requires Enabled(s, act)
  {
    match act
    case Cas(t) =>
      var p := s.threads[t];
      || s.store.cells[p.cell] != p.seen
      || s.store.memory[p.made].kind.Mega?
      || (p.cell < |s.store.selectors| && p.target == s.lookup(p.class_, s.store.selectors[p.cell]))
      || Pending(s, p.cell, p.target)
    case WalkCas => s.store.cells[s.walk.i] == s.walk.seen ||
      (Known(s.store, s.store.cells[s.walk.i]) && At(s.store.memory, s.store.cells[s.walk.i]).kind.Mega?)
    case _ => true
  }

  lemma SeenSame(s: World, act: Act, cell: nat, seen: Addr)
    requires Inv(s) && Enabled(s, act) && !act.Sweep? && SeenOk(s.store, cell, seen)
    ensures Known(Next(s, act).store, seen) && At(Next(s, act).store.memory, seen) == At(s.store.memory, seen)
  {
    hide Inv, Enabled, Next;
    if seen != UNLINKED && seen != MEGA { StepLater(s, act, seen); }
  }

  lemma PendingKept(s: World, act: Act, i: nat, target: nat)
    requires Inv(s) && Enabled(s, act) && !act.Sweep? && Next(s, act).walk == s.walk
    ensures Pending(Next(s, act), i, target) <==> Pending(s, i, target)
  {
    hide ChainsOk, StatesOk, Counted, PlacesOk, ThreadsOk, Enabled, Next, Hits;
    WalkMade(s.store, s.walk);
    hide WalkOk;
    if s.walk.Looked? || s.walk.Ready? { SeenSame(s, act, s.walk.i, s.walk.seen); }
  }

  /** Steps that leave the walk, the lookup and cell i alone. */
  lemma OtherCellAgrees(s: World, act: Act, i: nat)
    requires Inv(s) && Enabled(s, act) && !act.Sweep? && |s.store.selectors| == |s.store.cells| && i < |s.store.cells|
    requires i < |Next(s, act).store.cells| && i < |Next(s, act).store.selectors| &&
      Next(s, act).store.cells[i] == s.store.cells[i]
    requires Next(s, act).walk == s.walk && Next(s, act).lookup == s.lookup &&
      Next(s, act).store.selectors[i] == s.store.selectors[i]
    ensures CellAgrees(Next(s, act), i) <==> CellAgrees(s, i)
  {
    hide Inv, Enabled, Next, Pending;
    CellSame(s, act, i);
    forall target ensures Pending(Next(s, act), i, target) <==> Pending(s, i, target)
      { PendingKept(s, act, i, target); }
  }

  lemma SameCells(s: World, act: Act)
    requires Inv(s) && Agree(s) && Enabled(s, act) &&
      (act.Lookup? || act.Load? || act.Build? || act.Covered? || act.CountRead? || act.CountWrite? || act.NewCell?)
    ensures Agree(Next(s, act))
  {
    hide Inv, CellAgrees, MayLearn, Covers;
    var s' := Next(s, act);
    forall i | 0 <= i < |s'.store.cells| ensures CellAgrees(s', i) {
      if i < |s.store.cells| {
        var _ := s.store.cells[i];
        OtherCellAgrees(s, act, i);
      } else {
        NothingCached(s', i);
      }
    }
  }

  lemma NothingCached(s: World, i: nat)
    requires i < |s.store.cells| && i < |s.store.selectors| && Known(s.store, s.store.cells[i]) &&
      Entries(At(s.store.memory, s.store.cells[i])) == []
    ensures CellAgrees(s, i)
  {
  }

  lemma OneMore(s: World, s': World, i: nat, w: Way)
    requires i < |s.store.cells| && i < |s.store.selectors| && i < |s'.store.cells| && i < |s'.store.selectors| &&
      s'.store.selectors[i] == s.store.selectors[i]
    requires CellAgrees(s, i) && Known(s'.store, s'.store.cells[i]) && s'.lookup == s.lookup
    requires Entries(At(s'.store.memory, s'.store.cells[i])) == Entries(At(s.store.memory, s.store.cells[i])) + [w]
    requires forall target {:trigger Pending(s', i, target)} :: Pending(s', i, target) <==> Pending(s, i, target)
    ensures CellAgrees(s', i) <==> WayAgrees(s, i, w)
  {
    hide Pending, Entries, At;
    var old_, new_ := Entries(At(s.store.memory, s.store.cells[i])), Entries(At(s'.store.memory, s'.store.cells[i]));
    assert new_[|old_|] == w;
    forall k | 0 <= k < |old_| ensures WayAgrees(s', i, new_[k])
      { assert WayAgrees(s, i, old_[k]) && new_[k] == old_[k]; }
  }

  /** A miss that publishes: the old pairs are as good as they were, the new one is what counts. */
  lemma LearnedAgrees(s: World, act: Act)
    requires Inv(s) && Agree(s) && act.Cas? && Enabled(s, act) &&
      s.store.cells[s.threads[act.t].cell] == s.threads[act.t].seen
    ensures s.threads[act.t].cell < |Next(s, act).store.cells| == |Next(s, act).store.selectors|
    ensures CellAgrees(Next(s, act), s.threads[act.t].cell) <==> Harmless(s, act)
  {
    hide ChainsOk, StatesOk, Counted, PlacesOk, WalkOk, Hits, Covers, Pending, CellAgrees;
    var s' := Next(s, act);
    var p := s.threads[act.t];
    assert PhaseOk(s.store, act.t, p);
    Allocated(s, p.made);
    assert CellAgrees(s, p.cell) by { var _ := s.store.cells[p.cell]; }
    forall target ensures Pending(s', p.cell, target) <==> Pending(s, p.cell, target)
      { PendingKept(s, act, p.cell, target); }
    if s.store.memory[p.made].kind.Mega? {
      NothingCached(s', p.cell);
    } else {
      LearnedEntries(p.seen, At(s.store.memory, p.seen), p.class_, p.target, s.store.memory[p.made]);
      OneMore(s, s', p.cell, Way(p.class_, p.target));
    }
  }

  lemma LearnedEntries(seen: Addr, st: IcState, c: nat, target: nat, made: IcState)
    requires MayLearn(seen, st, c, target, made) && !made.kind.Mega?
    ensures Entries(made) == Entries(st) + [Way(c, target)]
  {
  }

  lemma CasAgrees(s: World, act: Act)
    requires Inv(s) && Agree(s) && act.Cas? && Enabled(s, act)
    ensures Agree(Next(s, act)) <==> Harmless(s, act)
  {
    hide Inv, CellAgrees;
    var s' := Next(s, act);
    var p := s.threads[act.t];
    forall i | 0 <= i < |s'.store.cells| && s'.store.cells[i] == s.store.cells[i] ensures CellAgrees(s', i) {
      OtherCellAgrees(s, act, i);
    }
    if s.store.cells[p.cell] == p.seen {
      LearnedAgrees(s, act);
      var _ := s'.store.cells[p.cell];
    }
  }

  lemma SweepAgrees(s: World, act: Act)
    requires Inv(s) && act.Sweep? && Enabled(s, act)
    ensures Agree(Next(s, act))
  {
    hide StatesOk, Counted, PlacesOk, WalkOk, ThreadsOk, Total;
    var s' := Next(s, act);
    assert |s.store.cells| == |s.store.selectors|;
    hide ChainsOk;
    forall i | 0 <= i < |s'.store.cells| ensures CellAgrees(s', i) {
      NothingCached(s', i);
    }
  }

  /** The old entry's cells become pending all at once, and each stops being so when the walk
      has looked at it and found nothing. */
  lemma WalkAgrees(s: World, act: Act)
    requires Inv(s) && Agree(s) && Enabled(s, act) &&
      (act.Republish? || act.WalkLoad? || act.WalkBuild? || act.WalkSkip? || act.WalkCountRead? ||
      act.WalkCountWrite? || act.WalkEnd?)
    ensures Agree(Next(s, act))
  {
    hide ChainsOk, StatesOk, Counted, PlacesOk, WalkOk, ThreadsOk;
    var s' := Next(s, act);
    forall i | 0 <= i < |s'.store.cells| ensures CellAgrees(s', i) {
      assert CellAgrees(s, i);
      CellSame(s, act, i);
      var ways := Entries(At(s.store.memory, s.store.cells[i]));
      forall k | 0 <= k < |ways| ensures WayAgrees(s', i, ways[k]) {
        assert WayAgrees(s, i, ways[k]);
        if s.walk.Looked? {
          WalkMade(s.store, s.walk);
          SeenSame(s, act, s.walk.i, s.walk.seen);
        }
      }
    }
  }

  lemma WalkCasAgrees(s: World, act: Act)
    requires Inv(s) && Agree(s) && Superseded(s) && act.WalkCas? && Enabled(s, act)
    ensures Agree(Next(s, act)) <==> Harmless(s, act)
  {
    hide ChainsOk, StatesOk, Counted, PlacesOk, ThreadsOk, CellAgrees;
    var s' := Next(s, act);
    var i := s.walk.i;
    WalkMade(s.store, s.walk);
    forall j | 0 <= j < |s'.store.cells| && j != i ensures CellAgrees(s', j) {
      var _ := s.store.cells[j];
      CellSame(s, act, j);
      PastCell(s, s', j);
    }
    if s.store.cells[i] == s.walk.seen {
      Allocated(s, s.walk.made);
      NothingCached(s', i);
    } else {
      CellSame(s, act, i);
      if At(s.store.memory, s.store.cells[i]).kind.Mega? {
        NothingCached(s', i);
      } else {
        StaleWay(s, s', i);
        var _ := s'.store.cells[i];
      }
    }
  }

  /** A cell other than the walk's own is pending before the move exactly if it is after. */
  lemma PastCell(s: World, s': World, j: nat)
    requires j < |s.store.cells| && j < |s.store.selectors| && j < |s'.store.cells| &&
      s'.store.selectors == s.store.selectors && s'.lookup == s.lookup && CellAgrees(s, j)
    requires s'.store.cells[j] == s.store.cells[j] && Known(s'.store, s.store.cells[j]) &&
      At(s'.store.memory, s.store.cells[j]) == At(s.store.memory, s.store.cells[j])
    requires s.walk.Ready? && Between(s'.walk) && s'.walk.entry == s.walk.entry && s'.walk.i == s.walk.i + 1 &&
      j != s.walk.i
    ensures CellAgrees(s', j)
  {
    hide Hits, At, Entries;
    var ways := Entries(At(s.store.memory, s.store.cells[j]));
    forall k | 0 <= k < |ways| ensures WayAgrees(s', j, ways[k]) { assert WayAgrees(s, j, ways[k]); }
  }

  /** A lost retirement: the state that won still has the pair with the old entry. */
  lemma StaleWay(s: World, s': World, i: nat)
    requires Superseded(s) && s.walk.Ready? && WalkOk(s.store, s.walk) && i == s.walk.i && i < |s.store.selectors| &&
      !At(s.store.memory, s.store.cells[i]).kind.Mega?
    requires s'.lookup == s.lookup && Between(s'.walk) && s'.walk.entry == s.walk.entry && s'.walk.i == i + 1 &&
      s'.store.selectors == s.store.selectors && i < |s'.store.cells|
    requires s'.store.cells[i] == s.store.cells[i] && Known(s'.store, s.store.cells[i]) &&
      At(s'.store.memory, s.store.cells[i]) == At(s.store.memory, s.store.cells[i])
    ensures !CellAgrees(s', i)
  {
    var before, now := Entries(At(s.store.memory, s.walk.seen)), Entries(At(s.store.memory, s.store.cells[i]));
    var k :| 0 <= k < |before| && before[k].target == s.walk.entry;
    assert now[k] == before[k];
    assert !WayAgrees(s', i, now[k]);
  }

  /** A step from agreement ends in agreement if and only if it is harmless. */
  lemma StepAgrees(s: World, act: Act)
    requires Inv(s) && Agree(s) && Superseded(s) && Enabled(s, act)
    ensures Agree(Next(s, act)) <==> Harmless(s, act)
    ensures Superseded(Next(s, act))
  {
    hide Inv, Agree, MayLearn, Hits, Covers, Pending, Total;
    match act
    case Cas(_) => CasAgrees(s, act);
    case WalkCas => WalkCasAgrees(s, act);
    case Sweep(_) => SweepAgrees(s, act);
    case Republish(_, _) => WalkAgrees(s, act);
    case WalkLoad => WalkAgrees(s, act);
    case WalkBuild(_) => WalkAgrees(s, act);
    case WalkSkip => WalkAgrees(s, act);
    case WalkCountRead => WalkAgrees(s, act);
    case WalkCountWrite => WalkAgrees(s, act);
    case WalkEnd => WalkAgrees(s, act);
    case Lookup(_, _, _, _) => SameCells(s, act);
    case Load(_) => SameCells(s, act);
    case Build(_, _, _) => SameCells(s, act);
    case Covered(_) => SameCells(s, act);
    case CountRead(_) => SameCells(s, act);
    case CountWrite(_) => SameCells(s, act);
    case NewCell(_) => SameCells(s, act);
  }

  // ----- whole runs -----

  /** Every miss looks up what uncached lookup gives, and no recompiled method goes live
      between a handler's lookup and its publish. A sweep cannot fall there. */
  ghost predicate Timely(s: World, act: Act)
  {
    match act
    case Lookup(_, cell, c, target) => cell < |s.store.selectors| && target == s.lookup(c, s.store.selectors[cell])
    case Republish(_, _) => forall t {:trigger s.threads[t]} :: 0 <= t < |s.threads| ==> !InWindow(s.threads[t])
    case _ => true
  }

  /** Between its lookup and its publish. */
  ghost predicate InWindow(p: Phase)
  {
    p.Found? || p.Loaded? || p.Built?
  }

  /** The retirement walk does not lose its compare-and-swap to a growing pic. */
  ghost predicate Retires(s: World, act: Act)
  {
    act.WalkCas? && Enabled(s, act) ==> Harmless(s, act)
  }

  ghost predicate Current(s: World, p: Phase)
  {
    InWindow(p) ==> p.cell < |s.store.selectors| && p.target == s.lookup(p.class_, s.store.selectors[p.cell])
  }

  ghost predicate AllCurrent(s: World)
  {
    forall t {:trigger s.threads[t]} :: 0 <= t < |s.threads| ==> Current(s, s.threads[t])
  }

  lemma StaysCurrent(s: World, act: Act)
    requires Enabled(s, act) && Timely(s, act) && AllCurrent(s)
    ensures AllCurrent(Next(s, act))
  {
    hide Known, MayLearn, Hits, Covers, CanMalloc, AllKnown, SweptCells, Total;
    var s' := Next(s, act);
    forall t | 0 <= t < |s'.threads| ensures Current(s', s'.threads[t]) { assert Current(s, s.threads[t]); }
  }

  /** Along every run with timely lookups and no lost retirement, every cached pair is what
      uncached lookup gives for the class and the site's selector, or a retirement in progress
      has yet to reach it; between retirements there is no exception. */
  lemma {:induction false} CachesAgree(r: Run, n: nat)
    requires IsRun(r) && n < |r.states|
    requires forall k {:trigger r.acts[k]} ::
      0 <= k < |r.acts| ==> Timely(r.states[k], r.acts[k]) && Retires(r.states[k], r.acts[k])
    ensures Agree(r.states[n]) && Superseded(r.states[n]) && AllCurrent(r.states[n])
    ensures r.states[n].walk.NoWalk? ==> AllAgreeNow(r.states[n])
  {
    hide Inv;
    if n > 0 {
      var s, act := r.states[n - 1], r.acts[n - 1];
      CachesAgree(r, n - 1);
      RunsKeep(r, n - 1);
      hide IsRun, Agree, Superseded;
      TimelyHarmless(s, act);
      StepAgrees(s, act);
      StaysCurrent(s, act);
    }
    AgreesExactly(r.states[n]);
  }

  lemma TimelyHarmless(s: World, act: Act)
    requires Enabled(s, act) && AllCurrent(s) && Retires(s, act)
    ensures Harmless(s, act)
  {
    if act.Cas? { assert Current(s, s.threads[act.t]); }
  }

  ghost predicate AgreesNow(s: World, i: nat)
    requires i < |s.store.cells|
  {
    && i < |s.store.selectors| && Known(s.store, s.store.cells[i])
    && forall w {:trigger w in Entries(At(s.store.memory, s.store.cells[i]))} ::
      w in Entries(At(s.store.memory, s.store.cells[i])) ==> w.target == s.lookup(w.class_, s.store.selectors[i])
  }

  ghost predicate AllAgreeNow(s: World)
  {
    forall i {:trigger s.store.cells[i]} :: 0 <= i < |s.store.cells| ==> AgreesNow(s, i)
  }

  lemma AgreesExactly(s: World)
    requires Agree(s)
    ensures s.walk.NoWalk? ==> AllAgreeNow(s)
  {
    if s.walk.NoWalk? {
      forall i | 0 <= i < |s.store.cells| ensures AgreesNow(s, i) {
        assert CellAgrees(s, i);
        forall w | w in Entries(At(s.store.memory, s.store.cells[i]))
          ensures w.target == s.lookup(w.class_, s.store.selectors[i]) {
          var k :| 0 <= k < |Entries(At(s.store.memory, s.store.cells[i]))| &&
            Entries(At(s.store.memory, s.store.cells[i]))[k] == w;
          assert WayAgrees(s, i, w);
        }
      }
    }
  }

  // ----- a lost retirement -----

  /** A timely step. */
  ghost predicate Goes(s: World, act: Act, s': World)
  {
    Enabled(s, act) && Timely(s, act) && Next(s, act) == s'
  }

  const GROWN: IcState := IcState(1, 10, Pic, 2, 3, [Way(1, 10), Way(2, 20)])
  const DROPPED: IcState := IcState(0, 0, Unlinked, 0, 3, [])

  /** One site, one handler: before anything is cached, */
  ghost function Empty(p: Phase): World
  {
    World(Store(map[], [UNLINKED], [0], 0, [[]], map[]), 0, [p], NoWalk, Always(10))
  }

  /** with class 1 bound to entry 10 at address 3, */
  ghost function OneClass(gauge: int, p: Phase, walk: Walk, target: nat): World
  {
    World(Store(map[3 := FIRST], [3], [0], 56, [[3]], map[3 := OnChain(0, 0)]), gauge, [p], walk, Always(target))
  }

  /** and with class 2 bound to entry 20 beside it, at address 4. */
  ghost function TwoClasses(walk: Walk): World
  {
    World(Store(map[3 := FIRST, 4 := GROWN], [4], [0], 128, [[3, 4]], map[3 := OnChain(0, 0), 4 := OnChain(0, 1)]), 56,
      [Counting(72)], walk, Always(20))
  }

  ghost function BeforeFirst(): World
  {
    World(Store(map[3 := FIRST], [UNLINKED], [0], 0, [[]], map[3 := OfThread(0)]), 0, [Built(0, 1, 10, UNLINKED, 3)],
      NoWalk, Always(10))
  }

  ghost function BeforeGrown(): World
  {
    World(Store(map[3 := FIRST, 4 := GROWN], [3], [0], 56, [[3]], map[3 := OnChain(0, 0), 4 := OfThread(0)]), 56,
      [Built(0, 2, 20, 3, 4)], Looked(10, 0, 3), Always(20))
  }

  ghost function BeforeLoss(): World
  {
    var s := TwoClasses(Ready(10, 0, 3, 5)).store;
    World(s.(memory := s.memory[5 := DROPPED], place := s.place[5 := OfWalk]), 56, [Counting(72)], Ready(10, 0, 3, 5),
      Always(20))
  }

  lemma Binds()
    ensures Goes(Empty(Idle), Lookup(0, 0, 1, 10), Empty(Found(0, 1, 10)))
    ensures Goes(Empty(Found(0, 1, 10)), Load(0), Empty(Loaded(0, 1, 10, UNLINKED)))
    ensures Goes(Empty(Loaded(0, 1, 10, UNLINKED)), Build(0, 3, FIRST), BeforeFirst())
    ensures Goes(BeforeFirst(), Cas(0), OneClass(0, Counting(56), NoWalk, 10))
  {
    var s := Next(BeforeFirst(), Cas(0)).store;
    assert s.chains[0] == [3];
    assert s.chains == [[3]] && s.place == map[3 := OnChain(0, 0)];
  }

  lemma Counts()
    ensures Goes(OneClass(0, Counting(56), NoWalk, 10), CountRead(0), OneClass(0, Adding(56, 0), NoWalk, 10))
    ensures Goes(OneClass(0, Adding(56, 0), NoWalk, 10), CountWrite(0), OneClass(56, Idle, NoWalk, 10))
  {
  }

  lemma Walks()
    ensures Goes(OneClass(56, Idle, NoWalk, 10), Republish(10, Always(20)), OneClass(56, Idle, Walking(10, 0), 20))
    ensures Goes(OneClass(56, Idle, Walking(10, 0), 20), WalkLoad, OneClass(56, Idle, Looked(10, 0, 3), 20))
    ensures Goes(OneClass(56, Idle, Looked(10, 0, 3), 20), Lookup(0, 0, 2, 20),
      OneClass(56, Found(0, 2, 20), Looked(10, 0, 3), 20))
    ensures Goes(OneClass(56, Found(0, 2, 20), Looked(10, 0, 3), 20), Load(0),
      OneClass(56, Loaded(0, 2, 20, 3), Looked(10, 0, 3), 20))
  {
  }

  lemma Grows()
    ensures Goes(OneClass(56, Loaded(0, 2, 20, 3), Looked(10, 0, 3), 20), Build(0, 4, GROWN), BeforeGrown())
    ensures Goes(BeforeGrown(), Cas(0), TwoClasses(Looked(10, 0, 3)))
  {
    var s := Next(BeforeGrown(), Cas(0)).store;
    assert s.chains[0] == [3, 4];
    assert s.chains == [[3, 4]] && s.place == map[3 := OnChain(0, 0), 4 := OnChain(0, 1)];
  }

  lemma Loses()
    ensures Goes(TwoClasses(Looked(10, 0, 3)), WalkBuild(5), BeforeLoss())
    ensures Goes(BeforeLoss(), WalkCas, TwoClasses(Walking(10, 1)))
    ensures Goes(TwoClasses(Walking(10, 1)), WalkEnd, TwoClasses(NoWalk))
  {
    assert Entries(FIRST)[0].target == 10;
  }

  lemma Stale()
    ensures TwoClasses(NoWalk).walk.NoWalk? && |TwoClasses(NoWalk).store.cells| == 1 &&
      !AgreesNow(TwoClasses(NoWalk), 0)
  {
    var s := TwoClasses(NoWalk);
    assert At(s.store.memory, s.store.cells[0]) == GROWN;
    assert GROWN.ways[0] == Way(1, 10) && Way(1, 10) in Entries(GROWN);
    assert s.lookup(1, 0) == 20;
  }

  ghost predicate TimelyRun(r: Run)
  {
    IsRun(r) && forall k {:trigger r.acts[k]} :: 0 <= k < |r.acts| ==> Timely(r.states[k], r.acts[k])
  }

  ghost function Then(r: Run, act: Act, s: World): (after: Run)
    requires TimelyRun(r) && Goes(r.states[|r.acts|], act, s)
    ensures TimelyRun(after) && after.states[|after.acts|] == s
  {
    Run(r.states + [s], r.acts + [act])
  }

  ghost function Nothing(): World
  {
    World(Store(map[], [], [], 0, [], map[]), 0, [Idle], NoWalk, Always(10))
  }

  lemma Starts()
    ensures TimelyRun(Run([Nothing()], [])) && Goes(Nothing(), NewCell(0), Empty(Idle))
  {
  }

  /** Timely lookups are not enough. A site bound to one class is being retired; after the walk
      has loaded its state and before its compare-and-swap, a miss for another class, looked up
      after the recompiled method went live, grows the cell to a pic. The retirement is lost,
      the walk ends, and the first class still goes to the old entry. */
  lemma LostRetirement() returns (r: Run)
    ensures TimelyRun(r)
    ensures var s := r.states[|r.acts|];
      s.walk.NoWalk? && |s.store.cells| == 1 && !AgreesNow(s, 0)
  {
    hide *;
    Starts();
    Binds();
    Counts();
    Walks();
    Grows();
    Loses();
    Stale();
    r := Run([Nothing()], []);
    r := Then(r, NewCell(0), Empty(Idle));
    r := Then(r, Lookup(0, 0, 1, 10), Empty(Found(0, 1, 10)));
    r := Then(r, Load(0), Empty(Loaded(0, 1, 10, UNLINKED)));
    r := Then(r, Build(0, 3, FIRST), BeforeFirst());
    r := Then(r, Cas(0), OneClass(0, Counting(56), NoWalk, 10));
    r := Then(r, CountRead(0), OneClass(0, Adding(56, 0), NoWalk, 10));
    r := Then(r, CountWrite(0), OneClass(56, Idle, NoWalk, 10));
    r := Then(r, Republish(10, Always(20)), OneClass(56, Idle, Walking(10, 0), 20));
    r := Then(r, WalkLoad, OneClass(56, Idle, Looked(10, 0, 3), 20));
    r := Then(r, Lookup(0, 0, 2, 20), OneClass(56, Found(0, 2, 20), Looked(10, 0, 3), 20));
    r := Then(r, Load(0), OneClass(56, Loaded(0, 2, 20, 3), Looked(10, 0, 3), 20));
    r := Then(r, Build(0, 4, GROWN), BeforeGrown());
    r := Then(r, Cas(0), TwoClasses(Looked(10, 0, 3)));
    r := Then(r, WalkBuild(5), BeforeLoss());
    r := Then(r, WalkCas, TwoClasses(Walking(10, 1)));
    r := Then(r, WalkEnd, TwoClasses(NoWalk));
  }
}
