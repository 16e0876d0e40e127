/** What every step of the inline caches keeps: the prev chains partition the published
    states, a loaded pointer still names the state it was loaded from although addresses are
    reused, and the bytes published are the size of the chains. */
module InlineCacheInvariant {
  import opened InlineCache

  ghost predicate LinkOk(s: Store, i: nat, k: nat, a: Addr)
    requires i < |s.chains| && k < |s.chains[i]|
  {
    && a in s.memory && a in s.place && s.place[a] == OnChain(i, k)
    && s.memory[a].prev == if k == 0 then NULL else s.chains[i][k - 1]
  }

  /** The chain from cell i's pointer down through prev is chains[i], ending in NULL. */
  ghost predicate ChainOk(s: Store, i: nat)
    requires i < |s.chains| && i < |s.cells|
  {
    && (if s.chains[i] == [] then s.cells[i] == UNLINKED || s.cells[i] == MEGA
      else s.cells[i] == s.chains[i][|s.chains[i]| - 1])
    && forall k {:trigger LinkOk(s, i, k, s.chains[i][k])} :: 0 <= k < |s.chains[i]| ==> LinkOk(s, i, k, s.chains[i][k])
  }

  ghost predicate ChainsOk(s: Store)
  {
    && |s.cells| == |s.chains| == |s.selectors|
    && forall i {:trigger s.cells[i]} {:trigger s.chains[i]} :: 0 <= i < |s.cells| ==> ChainOk(s, i)
  }

  ghost predicate PlaceOk(s: World, a: Addr, p: Place)
  {
    match p
    case OnChain(i, k) => i < |s.store.chains| && k < |s.store.chains[i]| && s.store.chains[i][k] == a
    case OfThread(t) => t < |s.threads| && s.threads[t].Built? && s.threads[t].made == a
    case OfWalk => s.walk.Ready? && s.walk.made == a
  }

  /** Every allocated state is in exactly one place. */
  ghost predicate PlacesOk(s: World)
  {
    && s.store.memory.Keys == s.store.place.Keys
    && forall a {:trigger s.store.place[a]} :: a in s.store.place ==> a > MEGA && PlaceOk(s, a, s.store.place[a])
  }

  ghost predicate StatesOk(s: Store)
  {
    forall a {:trigger s.memory[a]} :: a in s.memory ==> StateOk(s.memory[a])
  }

  /** A pointer loaded from a cell: a sentinel, or a state that is still on the cell's chain. */
  ghost predicate SeenOk(s: Store, cell: nat, seen: Addr)
  {
    seen == UNLINKED || seen == MEGA ||
      (seen in s.memory && seen in s.place && s.place[seen].OnChain? && s.place[seen].cell == cell)
  }

  ghost predicate PhaseOk(s: Store, t: nat, p: Phase)
  {
    match p
    case Idle => true
    case Counting(_) => true
    case Adding(_, _) => true
    case Found(cell, c, _) => cell < |s.cells| && c != 0
    case Loaded(cell, c, _, seen) => cell < |s.cells| && c != 0 && SeenOk(s, cell, seen)
    case Built(cell, c, target, seen, made) =>
      && cell < |s.cells| && c != 0 && SeenOk(s, cell, seen)
      && made in s.memory && made in s.place && s.place[made] == OfThread(t) &&
        MayLearn(seen, At(s.memory, seen), c, target, s.memory[made])
  }

  ghost predicate ThreadsOk(s: World)
  {
    forall t {:trigger s.threads[t]} :: 0 <= t < |s.threads| ==> PhaseOk(s.store, t, s.threads[t])
  }

  /** later has all the entries of st, in front, or is mega. */
  ghost predicate Extends(st: IcState, later: IcState)
  {
    later.kind.Mega? || Entries(st) <= Entries(later)
  }

  ghost predicate LookedOk(s: Store, i: nat, seen: Addr)
  {
    i < |s.cells| && SeenOk(s, i, seen) && Known(s, s.cells[i]) && Extends(At(s.memory, seen), At(s.memory, s.cells[i]))
  }

  ghost predicate WalkOk(s: Store, w: Walk)
  {
    match w
    case NoWalk => true
    case WalkCounting(_, i, _) => i <= |s.cells|
    case WalkAdding(_, i, _, _) => i <= |s.cells|
    case Walking(_, i) => i <= |s.cells|
    case Looked(_, i, seen) => LookedOk(s, i, seen)
    case Ready(entry, i, seen, made) =>
      && LookedOk(s, i, seen) && Hits(At(s.memory, seen), entry)
      && made in s.memory && made in s.place && s.place[made] == OfWalk && Retired(seen, s.memory[made])
  }

  ghost predicate Counted(s: Store)
  {
    s.bytes == Total(s.memory, s.chains)
  }

  ghost predicate Inv(s: World)
  {
    ChainsOk(s.store) && StatesOk(s.store) && Counted(s.store) && PlacesOk(s) && ThreadsOk(s) && WalkOk(s.store, s.walk)
  }

  lemma CellKnown(s: Store, i: nat)
    requires ChainsOk(s) && i < |s.cells|
    ensures Known(s, s.cells[i]) && SeenOk(s, i, s.cells[i])
    ensures s.chains[i] == [] ==> s.cells[i] == UNLINKED || s.cells[i] == MEGA
  {
    if s.chains[i] != [] {
      var k := |s.chains[i]| - 1;
      assert LinkOk(s, i, k, s.chains[i][k]);
    }
  }

  // ----- bytes on chains -----

  lemma {:induction false} ChainBytesFrame(m: map<Addr, IcState>, n: map<Addr, IcState>, chain: seq<Addr>)
    requires forall k {:trigger chain[k]} ::
      0 <= k < |chain| ==> chain[k] in m && chain[k] in n && m[chain[k]] == n[chain[k]]
    ensures ChainBytes(m, chain) == ChainBytes(n, chain)
  {
    if chain != [] {
      ChainBytesFrame(m, n, chain[..|chain| - 1]);
      var _ := chain[|chain| - 1];
    }
  }

  ghost predicate Agrees(m: map<Addr, IcState>, n: map<Addr, IcState>, chain: seq<Addr>)
  {
    forall k {:trigger chain[k]} :: 0 <= k < |chain| ==> chain[k] in m && chain[k] in n && m[chain[k]] == n[chain[k]]
  }

  lemma {:induction false} TotalFrame(m: map<Addr, IcState>, n: map<Addr, IcState>, chains: seq<seq<Addr>>)
    requires forall i {:trigger chains[i]} :: 0 <= i < |chains| ==> Agrees(m, n, chains[i])
    ensures Total(m, chains) == Total(n, chains)
  {
    if chains != [] {
      TotalFrame(m, n, chains[..|chains| - 1]);
      var _ := chains[|chains| - 1];
      ChainBytesFrame(m, n, chains[|chains| - 1]);
    }
  }

  lemma {:induction false} TotalGrows(m: map<Addr, IcState>, chains: seq<seq<Addr>>, i: nat, a: Addr)
    requires i < |chains| && a in m
    ensures Total(m, chains[i := chains[i] + [a]]) == Total(m, chains) + Bytes(m[a])
  {
    var n := |chains| - 1;
    var after := chains[i := chains[i] + [a]];
    if i == n {
      assert after[..n] == chains[..n];
      assert (chains[i] + [a])[..|chains[i]|] == chains[i];
    } else {
      assert after[..n] == chains[..n][i := chains[i] + [a]];
      TotalGrows(m, chains[..n], i, a);
    }
  }

  lemma {:induction false} TotalEmpty(m: map<Addr, IcState>, chains: seq<seq<Addr>>)
    requires forall i {:trigger chains[i]} :: 0 <= i < |chains| ==> chains[i] == []
    ensures Total(m, chains) == 0
  {
    if chains != [] {
      TotalEmpty(m, chains[..|chains| - 1]);
      var _ := chains[|chains| - 1];
    }
  }

  lemma MallocCounts(s: Store, a: Addr, st: IcState)
    requires ChainsOk(s) && CanMalloc(s, a)
    ensures Total(s.memory[a := st], s.chains) == Total(s.memory, s.chains)
  {
    forall i | 0 <= i < |s.chains| ensures Agrees(s.memory, s.memory[a := st], s.chains[i]) {
      forall k | 0 <= k < |s.chains[i]| ensures s.chains[i][k] in s.memory && s.chains[i][k] != a {
        assert LinkOk(s, i, k, s.chains[i][k]);
      }
    }
    TotalFrame(s.memory, s.memory[a := st], s.chains);
  }

  lemma DiscardCounts(s: Store, a: Addr)
    requires ChainsOk(s) && a in s.place && !s.place[a].OnChain?
    ensures Total(s.memory - {a}, s.chains) == Total(s.memory, s.chains)
  {
    forall i | 0 <= i < |s.chains| ensures Agrees(s.memory, s.memory - {a}, s.chains[i]) {
      forall k | 0 <= k < |s.chains[i]| ensures s.chains[i][k] in s.memory && s.chains[i][k] != a {
        assert LinkOk(s, i, k, s.chains[i][k]);
      }
    }
    TotalFrame(s.memory, s.memory - {a}, s.chains);
  }

  // ----- steps -----

  ghost predicate SameState(s: Store, s': Store, a: Addr)
  {
    a in s.memory && a in s.place && a in s'.memory && a in s'.place && s'.memory[a] == s.memory[a] &&
      s'.place[a] == s.place[a]
  }

  /** Nothing but the state at x changes, x is not a published state, and chains only grow. */
  ghost predicate Later(s: Store, s': Store, x: Addr)
  {
    && |s.cells| == |s.chains| <= |s'.cells| == |s'.chains|
    && (forall i {:trigger s.chains[i]} :: 0 <= i < |s.chains| ==> s.chains[i] <= s'.chains[i])
    && (x in s.place ==> !s.place[x].OnChain?)
    && s.memory.Keys == s.place.Keys && s'.memory.Keys == s'.place.Keys <= s.place.Keys + {x}
    && forall a {:trigger s.place[a]} :: a in s.place && a != x ==> SameState(s, s', a)
  }

  lemma PhaseKept(s: Store, s': Store, x: Addr, t: nat, p: Phase)
    requires PhaseOk(s, t, p) && Later(s, s', x) && (p.Built? ==> p.made != x)
    ensures PhaseOk(s', t, p)
  {
    hide MayLearn;
  }

  /** The threads other than t do not notice a change of thread t's or the walk's own state. */
  lemma ThreadsKept(s: World, s': World, x: Addr, t: nat)
    requires ThreadsOk(s) && Later(s.store, s'.store, x) && |s'.threads| == |s.threads|
    requires forall u {:trigger s'.threads[u]} :: 0 <= u < |s.threads| && u != t ==> s'.threads[u] == s.threads[u]
    requires x in s.store.place ==> s.store.place[x] == OfWalk || s.store.place[x] == OfThread(t)
    requires t < |s.threads| ==> PhaseOk(s'.store, t, s'.threads[t])
    ensures ThreadsOk(s')
  {
    hide Later, MayLearn;
    forall u | 0 <= u < |s.threads| && u != t ensures PhaseOk(s'.store, u, s'.threads[u]) {
      assert PhaseOk(s.store, u, s.threads[u]);
      PhaseKept(s.store, s'.store, x, u, s.threads[u]);
    }
  }

  lemma PlacesKept(s: World, s': World, x: Addr)
    requires PlacesOk(s) && Later(s.store, s'.store, x)
    requires forall u {:trigger s.threads[u]} ::
      0 <= u < |s.threads| && s.threads[u].Built? && s.threads[u].made != x ==>
      u < |s'.threads| && s'.threads[u] == s.threads[u]
    requires s.walk.Ready? && s.walk.made != x ==> s'.walk == s.walk
    requires x in s'.store.place ==> x > MEGA && PlaceOk(s', x, s'.store.place[x])
    ensures PlacesOk(s')
  {
    forall a | a in s'.store.place && a != x ensures a > MEGA && PlaceOk(s', a, s'.store.place[a]) {
      assert a in s.store.place && PlaceOk(s, a, s.store.place[a]);
    }
  }

  /** Cell i is as it was, or moved on from what it was. */
  ghost predicate CellGrows(s: Store, s': Store, x: Addr, i: nat)
    requires i < |s.cells| && i < |s'.cells|
  {
    && Known(s, s.cells[i]) && Known(s', s'.cells[i])
    && if s'.cells[i] == s.cells[i] then s.cells[i] != x
      else !At(s.memory, s.cells[i]).kind.Mega? && Extends(At(s.memory, s.cells[i]), At(s'.memory, s'.cells[i]))
  }

  lemma WalkKept(s: Store, s': Store, x: Addr, w: Walk)
    requires WalkOk(s, w) && Later(s, s', x) && (w.Ready? ==> w.made != x)
    requires w.Looked? || w.Ready? ==> CellGrows(s, s', x, w.i)
    ensures WalkOk(s', w)
  {
    hide Retired, Hits;
  }

  lemma MallocKeeps(s: Store, a: Addr, st: IcState, p: Place)
    requires ChainsOk(s) && s.memory.Keys == s.place.Keys && StatesOk(s) && Counted(s) && CanMalloc(s, a) && StateOk(st)
    ensures ChainsOk(Malloc(s, a, st, p)) && StatesOk(Malloc(s, a, st, p)) && Counted(Malloc(s, a, st, p)) &&
      Later(s, Malloc(s, a, st, p), a)
  {
    hide StateOk, Total;
    var s' := Malloc(s, a, st, p);
    MallocCounts(s, a, st);
    forall i | 0 <= i < |s'.cells| ensures ChainOk(s', i) {
      assert ChainOk(s, i);
      forall k | 0 <= k < |s.chains[i]|
        ensures LinkOk(s', i, k, s'.chains[i][k]) { assert LinkOk(s, i, k, s.chains[i][k]); }
    }
    forall b | b in s.place && b != a ensures SameState(s, s', b) {}
  }

  lemma DiscardKeeps(s: Store, a: Addr)
    requires ChainsOk(s) && s.memory.Keys == s.place.Keys && StatesOk(s) && Counted(s) && a in s.place &&
      !s.place[a].OnChain?
    ensures ChainsOk(Discard(s, a)) && StatesOk(Discard(s, a)) && Counted(Discard(s, a)) && Later(s, Discard(s, a), a)
  {
    hide StateOk, Total;
    var s' := Discard(s, a);
    DiscardCounts(s, a);
    forall i | 0 <= i < |s'.cells| ensures ChainOk(s', i) {
      assert ChainOk(s, i);
      forall k | 0 <= k < |s.chains[i]|
        ensures LinkOk(s', i, k, s'.chains[i][k]) { assert LinkOk(s, i, k, s.chains[i][k]); }
    }
    forall b | b in s.place && b != a ensures SameState(s, s', b) {}
    forall b | b in s'.memory ensures StateOk(s'.memory[b]) { var _ := s.memory[b]; }
  }

  ghost predicate CanLink(s: Store, cell: nat, made: Addr)
  {
    && cell < |s.cells| && cell < |s.chains| && made in s.memory && made in s.place && !s.place[made].OnChain?
    && s.memory[made].prev == if s.chains[cell] == [] then NULL else s.cells[cell]
  }

  lemma PublishLater(s: Store, cell: nat, made: Addr)
    requires ChainsOk(s) && s.memory.Keys == s.place.Keys && CanLink(s, cell, made)
    ensures Later(s, Publish(s, cell, made), made)
  {
    hide ChainOk;
    var s' := Publish(s, cell, made);
    forall b | b in s.place && b != made ensures SameState(s, s', b) {}
    assert s'.place.Keys == s.place.Keys;
  }

  lemma PublishLink(s: Store, cell: nat, made: Addr, i: nat, k: nat)
    requires |s.chains| == |s.cells| && CanLink(s, cell, made) && i < |s.chains| && k < |s.chains[i]| &&
      LinkOk(s, i, k, s.chains[i][k])
    ensures k < |Publish(s, cell, made).chains[i]| && LinkOk(Publish(s, cell, made), i, k, s.chains[i][k]) &&
      Publish(s, cell, made).chains[i][k] == s.chains[i][k]
  {
  }

  lemma PublishHead(s: Store, cell: nat, made: Addr)
    requires |s.chains| == |s.cells| && CanLink(s, cell, made) && ChainOk(s, cell)
    ensures LinkOk(Publish(s, cell, made), cell, |s.chains[cell]|, made)
  {
  }

  lemma PublishChain(s: Store, cell: nat, made: Addr, i: nat)
    requires ChainsOk(s) && CanLink(s, cell, made) && i < |s.cells|
    ensures ChainOk(Publish(s, cell, made), i)
  {
    var s' := Publish(s, cell, made);
    assert ChainOk(s, i);
    if i == cell { PublishHead(s, cell, made); }
    hide ChainsOk, CanLink, LinkOk;
    forall k | 0 <= k < |s'.chains[i]| ensures LinkOk(s', i, k, s'.chains[i][k]) {
      if k < |s.chains[i]| {
        assert LinkOk(s, i, k, s.chains[i][k]);
        PublishLink(s, cell, made, i, k);
      }
    }
  }

  lemma PublishKeeps(s: Store, cell: nat, made: Addr)
    requires ChainsOk(s) && s.memory.Keys == s.place.Keys && StatesOk(s) && Counted(s) && CanLink(s, cell, made)
    ensures ChainsOk(Publish(s, cell, made)) && StatesOk(Publish(s, cell, made)) && Counted(Publish(s, cell, made)) &&
      Later(s, Publish(s, cell, made), made)
  {
    hide StateOk, Total, ChainOk, Later;
    var s' := Publish(s, cell, made);
    TotalGrows(s.memory, s.chains, cell, made);
    PublishLater(s, cell, made);
    forall i | 0 <= i < |s'.cells| ensures ChainOk(s', i) { PublishChain(s, cell, made, i); }
  }

  lemma PhaseKeeps(s: World, act: Act)
    requires Inv(s) && Enabled(s, act) &&
      (act.Lookup? || act.Load? || act.Covered? || act.CountRead? || act.CountWrite?)
    ensures Inv(Next(s, act))
  {
    hide ChainsOk, StatesOk, Counted, MayLearn, WalkOk, Covers;
    var s' := Next(s, act);
    if act.Load? { CellKnown(s.store, s.threads[act.t].cell) by { assert PhaseOk(s.store, act.t, s.threads[act.t]); } }
    forall a | a in s.store.place ensures PlaceOk(s', a, s.store.place[a]) { assert PlaceOk(s, a, s.store.place[a]); }
    forall t | 0 <= t < |s'.threads|
      ensures PhaseOk(s'.store, t, s'.threads[t]) { assert PhaseOk(s.store, t, s.threads[t]); }
  }


  lemma BuildKeeps(s: World, act: Act)
    requires Inv(s) && Enabled(s, act) && act.Build?
    ensures Inv(Next(s, act)) && Later(s.store, Next(s, act).store, act.a)
  {
    hide ChainsOk, StatesOk, Counted, Later, WalkOk, MayLearn, ThreadsOk;
    var s' := Next(s, act);
    assert PhaseOk(s.store, act.t, s.threads[act.t]) by { hide PlacesOk; InPhase(s, act.t); }
    assert StateOk(act.made) by { hide PlacesOk;
      LearnedOk(s.threads[act.t].seen, At(s.store.memory, s.threads[act.t].seen), s.threads[act.t].class_,
      s.threads[act.t].target, act.made); }
    MallocKeeps(s.store, act.a, act.made, OfThread(act.t));
    ThreadsKept(s, s', act.a, act.t);
    PlacesKept(s, s', act.a);
    WalkMade(s.store, s.walk);
    WalkSame(s.store, s'.store, act.a, s.walk);
  }

  lemma InPhase(s: World, t: nat)
    requires ThreadsOk(s) && t < |s.threads|
    ensures PhaseOk(s.store, t, s.threads[t])
  {
  }

  lemma LearnedOk(seen: Addr, st: IcState, c: nat, target: nat, made: IcState)
    requires MayLearn(seen, st, c, target, made)
    ensures StateOk(made)
  {
  }

  lemma WalkMade(s: Store, w: Walk)
    requires WalkOk(s, w)
    ensures w.Ready? ==>
      w.made in s.memory && w.made in s.place && s.place[w.made] == OfWalk &&
      Retired(w.seen, s.memory[w.made])
    ensures w.Ready? || w.Looked? ==> w.i < |s.cells| && SeenOk(s, w.i, w.seen)
    ensures w.Ready? ==> Hits(At(s.memory, w.seen), w.entry)
  {
  }

  /** Nothing of the walk changes when no cell does. */
  lemma WalkSame(s: Store, s': Store, x: Addr, w: Walk)
    requires WalkOk(s, w) && Later(s, s', x) && s'.cells == s.cells && ChainsOk(s) && ChainsOk(s') && x > MEGA &&
      (w.Ready? ==> w.made != x)
    ensures WalkOk(s', w)
  {
    if w.Looked? || w.Ready? {
      CellKnown(s, w.i);
      CellKnown(s', w.i);
    }
    hide ChainsOk;
    WalkKept(s, s', x, w);
  }

  /** A compare-and-swap that succeeds finds the very state that was loaded at the head of the
      chain, so the new state's prev is right although addresses are reused. */
  lemma LinkedOnSuccess(s: World, cell: nat, seen: Addr, made: Addr)
    requires Inv(s) && cell < |s.store.cells| && made in s.store.memory && made in s.store.place &&
      !s.store.place[made].OnChain?
    requires s.store.cells[cell] == seen && seen != MEGA && s.store.memory[made].prev == if seen == UNLINKED then NULL
      else seen
    ensures CanLink(s.store, cell, made)
  {
    hide StatesOk, Counted, ThreadsOk, WalkOk;
    var c := s.store.chains[cell];
    assert ChainOk(s.store, cell);
    if c != [] {
      assert LinkOk(s.store, cell, |c| - 1, c[|c| - 1]);
      assert seen in s.store.place;
    }
  }

  lemma LearnedGrows(s: Store, cell: nat, made: Addr, c: nat, target: nat)
    requires cell < |s.cells| && cell < |s.chains| && Known(s, s.cells[cell]) && made in s.memory && made > MEGA &&
      MayLearn(s.cells[cell], At(s.memory, s.cells[cell]), c, target, s.memory[made])
    ensures CellGrows(s, Publish(s, cell, made), made, cell)
  {
  }

  lemma OtherCell(s: Store, cell: nat, made: Addr, i: nat)
    requires cell < |s.cells| && cell < |s.chains| && i < |s.cells| && made in s.memory && made > MEGA &&
      made in s.place && !s.place[made].OnChain? && SeenOk(s, i, s.cells[i])
    ensures i != cell ==> CellGrows(s, Publish(s, cell, made), made, i)
  {
  }

  lemma CasWins(s: World, act: Act)
    requires Inv(s) && act.Cas? && Enabled(s, act) && s.store.cells[s.threads[act.t].cell] == s.threads[act.t].seen
    ensures Inv(Next(s, act)) && Later(s.store, Next(s, act).store, s.threads[act.t].made)
    ensures CellGrows(s.store, Next(s, act).store, s.threads[act.t].made, s.threads[act.t].cell)
  {
    hide ChainsOk, StatesOk, Counted, Later, WalkOk, ThreadsOk;
    var s' := Next(s, act);
    var p := s.threads[act.t];
    InPhase(s, act.t);
    LinkedOnSuccess(s, p.cell, p.seen, p.made);
    PublishKeeps(s.store, p.cell, p.made);
    ThreadsKept(s, s', p.made, act.t);
    PlacesKept(s, s', p.made);
    WalkMade(s.store, s.walk);
    CellKnown(s.store, p.cell);
    LearnedGrows(s.store, p.cell, p.made, p.class_, p.target);
    if s.walk.Looked? || s.walk.Ready? {
      CellKnown(s.store, s.walk.i);
      CellKnown(s'.store, s.walk.i);
      OtherCell(s.store, p.cell, p.made, s.walk.i);
    }
    hide MayLearn, CellGrows, PlacesOk;
    WalkKept(s.store, s'.store, p.made, s.walk);
  }

  lemma CasLoses(s: World, act: Act)
    requires Inv(s) && act.Cas? && Enabled(s, act) && s.store.cells[s.threads[act.t].cell] != s.threads[act.t].seen
    ensures Inv(Next(s, act)) && Later(s.store, Next(s, act).store, s.threads[act.t].made)
  {
    hide ChainsOk, StatesOk, Counted, Later, WalkOk, ThreadsOk;
    var s' := Next(s, act);
    var p := s.threads[act.t];
    InPhase(s, act.t);
    DiscardKeeps(s.store, p.made);
    ThreadsKept(s, s', p.made, act.t);
    PlacesKept(s, s', p.made);
    WalkMade(s.store, s.walk);
    WalkSame(s.store, s'.store, p.made, s.walk);
  }

  lemma WalkStepKeeps(s: World, act: Act)
    requires Inv(s) && Enabled(s, act) &&
      (act.Republish? || act.WalkLoad? || act.WalkSkip? || act.WalkCountRead? || act.WalkCountWrite? || act.WalkEnd?)
    ensures Inv(Next(s, act))
  {
    hide ChainsOk, StatesOk, Counted, MayLearn, Hits, LookedOk;
    var s' := Next(s, act);
    if act.WalkLoad? {
      CellKnown(s.store, s.walk.i);
      LookedFirst(s.store, s.walk.i);
    }
    if act.WalkSkip? { WalkMade(s.store, s.walk); }
    forall a | a in s.store.place ensures PlaceOk(s', a, s.store.place[a]) { assert PlaceOk(s, a, s.store.place[a]); }
  }

  lemma LookedFirst(s: Store, i: nat)
    requires i < |s.cells| && Known(s, s.cells[i]) && SeenOk(s, i, s.cells[i])
    ensures LookedOk(s, i, s.cells[i])
  {
  }

  lemma WalkBuildKeeps(s: World, act: Act)
    requires Inv(s) && Enabled(s, act) && act.WalkBuild?
    ensures Inv(Next(s, act)) && Later(s.store, Next(s, act).store, act.a)
  {
    hide ChainsOk, StatesOk, Counted, Later, WalkOk, MayLearn, ThreadsOk, Hits;
    var s' := Next(s, act);
    MallocKeeps(s.store, act.a, IcState(0, 0, Unlinked, 0, s.walk.seen, []), OfWalk);
    ThreadsKept(s, s', act.a, |s.threads|);
    PlacesKept(s, s', act.a);
    WalkSame(s.store, s'.store, act.a, s.walk);
    LookedReady(s.store, s'.store, s.walk, act.a);
  }

  lemma LookedReady(s: Store, s': Store, w: Walk, a: Addr)
    requires w.Looked? && WalkOk(s, w) && WalkOk(s', w) && a in s'.memory && a in s'.place && s'.place[a] == OfWalk &&
      Retired(w.seen, s'.memory[a])
    requires Later(s, s', a) && Hits(At(s.memory, w.seen), w.entry)
    ensures WalkOk(s', Ready(w.entry, w.i, w.seen, a))
  {
    hide Hits;
  }

  lemma WalkCasKeeps(s: World, act: Act)
    requires Inv(s) && Enabled(s, act) && act.WalkCas?
    ensures Inv(Next(s, act)) && Later(s.store, Next(s, act).store, s.walk.made)
  {
    hide ChainsOk, StatesOk, Counted, Later, ThreadsOk, LookedOk;
    var s' := Next(s, act);
    var w := s.walk;
    WalkMade(s.store, w);
    if s.store.cells[w.i] == w.seen {
      LinkedOnSuccess(s, w.i, w.seen, w.made);
      PublishKeeps(s.store, w.i, w.made);
    } else {
      DiscardKeeps(s.store, w.made);
    }
    ThreadsKept(s, s', w.made, |s.threads|);
    PlacesKept(s, s', w.made);
  }

  lemma WithCellChain(s: Store, selector: nat, i: nat)
    requires ChainsOk(s) && i < |s.cells|
    ensures ChainOk(WithCell(s, selector), i)
  {
    var s' := WithCell(s, selector);
    assert ChainOk(s, i) && s'.chains[i] == s.chains[i];
    forall k | 0 <= k < |s'.chains[i]|
      ensures LinkOk(s', i, k, s'.chains[i][k]) { assert LinkOk(s, i, k, s.chains[i][k]); }
  }

  lemma WithCellKeeps(s: Store, selector: nat)
    requires ChainsOk(s) && StatesOk(s) && Counted(s)
    ensures ChainsOk(WithCell(s, selector)) && StatesOk(WithCell(s, selector)) && Counted(WithCell(s, selector))
  {
    hide StateOk, LinkOk;
    var s' := WithCell(s, selector);
    assert s'.chains[..|s.chains|] == s.chains;
    assert ChainOk(s', |s.cells|);
    hide ChainOk;
    forall i | 0 <= i < |s.cells| ensures ChainOk(s', i) { WithCellChain(s, selector, i); }
  }

  lemma NewCellKeeps(s: World, act: Act)
    requires Inv(s) && Enabled(s, act) && act.NewCell?
    ensures Inv(Next(s, act))
  {
    hide StatesOk, ChainsOk, Counted, MayLearn;
    var s' := Next(s, act);
    WithCellKeeps(s.store, act.selector);
    forall a | a in s.store.place ensures PlaceOk(s', a, s.store.place[a]) { assert PlaceOk(s, a, s.store.place[a]); }
    forall t | 0 <= t < |s.threads|
      ensures PhaseOk(s'.store, t, s.threads[t]) { assert PhaseOk(s.store, t, s.threads[t]); }
  }

  /** The sweep leaves no allocated state at all. */
  lemma SweepKeeps(s: World, act: Act)
    requires Inv(s) && Enabled(s, act) && act.Sweep?
    ensures Inv(Next(s, act)) && Next(s, act).store.memory == map[] && Next(s, act).store.bytes == 0
  {
    hide StateOk, Total;
    var s' := Next(s, act);
    forall a | a in s.store.place ensures a in OnChains(s.store.chains) {
      assert PlaceOk(s, a, s.store.place[a]);
    }
    assert s'.store.memory == map[] && s'.store.place == map[];
    TotalEmpty(s'.store.memory, s'.store.chains);
    forall i | 0 <= i < |s'.store.cells| ensures ChainOk(s'.store, i) {
      assert s'.store.chains[i] == [] && (s'.store.cells[i] == UNLINKED || s'.store.cells[i] == MEGA);
    }
  }

  lemma StepKeeps(s: World, act: Act)
    requires Inv(s) && Enabled(s, act)
    ensures Inv(Next(s, act))
  {
    hide Inv, Enabled, Next;
    match act
    case Lookup(_, _, _, _) => PhaseKeeps(s, act);
    case Load(_) => PhaseKeeps(s, act);
    case Build(_, _, _) => BuildKeeps(s, act);
    case Covered(_) => PhaseKeeps(s, act);
    case Cas(t) => CasKeeps(s, act);
    case CountRead(_) => PhaseKeeps(s, act);
    case CountWrite(_) => PhaseKeeps(s, act);
    case Republish(_, _) => WalkStepKeeps(s, act);
    case WalkLoad => WalkStepKeeps(s, act);
    case WalkBuild(_) => WalkBuildKeeps(s, act);
    case WalkSkip => WalkStepKeeps(s, act);
    case WalkCas => WalkCasKeeps(s, act);
    case WalkCountRead => WalkStepKeeps(s, act);
    case WalkCountWrite => WalkStepKeeps(s, act);
    case WalkEnd => WalkStepKeeps(s, act);
    case Sweep(_) => SweepKeeps(s, act);
    case NewCell(_) => NewCellKeeps(s, act);
  }

  lemma CasKeeps(s: World, act: Act)
    requires Inv(s) && act.Cas? && Enabled(s, act)
    ensures Inv(Next(s, act)) && Later(s.store, Next(s, act).store, s.threads[act.t].made)
  {
    hide Inv, Next, Later;
    if s.store.cells[s.threads[act.t].cell] == s.threads[act.t].seen { CasWins(s, act); } else { CasLoses(s, act); }
  }
}
