/** Results about every run of the inline caches: the stop-the-world sweep frees each state
    once, published states are immutable, and mega is permanent. */
module InlineCacheRuns {
  import opened InlineCache
  import opened InlineCacheInvariant

  // ----- the reset sweep -----

  /** icFreeChain: frees the states of one chain, newest first, each exactly once. */
  method FreeChain(s: Store, memory: map<Addr, IcState>, live: int, i: nat)
      returns (memory': map<Addr, IcState>, live': int)
    requires ChainsOk(s) && i < |s.cells| && (forall a {:trigger a in s.place} :: a in s.place ==> a > MEGA)
    requires Agrees(s.memory, memory, s.chains[i])
    ensures memory' == memory - (set k | 0 <= k < |s.chains[i]| :: s.chains[i][k])
    ensures live' == live - ChainBytes(s.memory, s.chains[i])
  {
    hide ChainsOk, Bytes;
    SameLength(s);
    ghost var chain := s.chains[i];
    var state := s.cells[i];
    ghost var n: nat := |chain|;
    memory', live' := memory, live;
    ChainAt(s, i, n);
    assert chain[..n] == chain;
    while state != NULL && state != UNLINKED && state != MEGA
      invariant n <= |chain| && (n > 0 ==> state == chain[n - 1]) &&
        (n == 0 ==> state == NULL || state == UNLINKED || state == MEGA)
      invariant memory' == memory - (set k | n <= k < |chain| :: chain[k])
      invariant live' == live - ChainBytes(s.memory, chain) + ChainBytes(s.memory, chain[..n])
      invariant forall k {:trigger chain[k]} ::
        0 <= k < n ==> chain[k] in memory' && memory'[chain[k]] == s.memory[chain[k]]
      decreases n
    {
      ChainAt(s, i, n);
      assert state in memory';
      var prev := memory'[state].prev;
      live' := live' - Bytes(memory'[state]);
      memory' := memory' - {state};
      assert chain[..n][..n - 1] == chain[..n - 1];
      state := prev;
      n := n - 1;
    }
    assert n == 0 by { if n > 0 { ChainAt(s, i, n); } }
    assert chain[..|chain|] == chain;
  }

  /** What holds of the n-th state of a chain, counted from the oldest as 1. */
  lemma ChainAt(s: Store, i: nat, n: nat)
    requires ChainsOk(s) && i < |s.cells| && n <= |s.chains[i]|
    ensures n == |s.chains[i]| ==> if n == 0 then s.cells[i] == UNLINKED || s.cells[i] == MEGA
      else s.cells[i] == s.chains[i][n - 1]
    ensures n > 0 ==>
      s.chains[i][n - 1] in s.memory && s.chains[i][n - 1] in s.place &&
      s.memory[s.chains[i][n - 1]].prev == if n == 1 then NULL else s.chains[i][n - 2]
    ensures n > 0 ==> forall k {:trigger s.chains[i][k]} :: 0 <= k < n - 1 ==> s.chains[i][k] != s.chains[i][n - 1]
  {
    assert ChainOk(s, i);
    if n > 0 {
      assert LinkOk(s, i, n - 1, s.chains[i][n - 1]);
      forall k | 0 <= k < n - 1 ensures s.chains[i][k] != s.chains[i][n - 1] { assert LinkOk(s, i, k, s.chains[i][k]); }
    }
  }

  lemma {:induction false} TotalSplit(m: map<Addr, IcState>, chains: seq<seq<Addr>>, i: nat)
    requires i < |chains|
    ensures Total(m, chains[..i + 1]) == Total(m, chains[..i]) + ChainBytes(m, chains[i])
  {
    assert chains[..i + 1][..i] == chains[..i];
  }

  /** The states on the first n chains. */
  ghost function FirstChains(chains: seq<seq<Addr>>, n: nat): set<Addr>
    requires n <= |chains|
  {
    set i, k | 0 <= i < n && 0 <= k < |chains[i]| :: chains[i][k]
  }

  lemma SameLength(s: Store)
    requires ChainsOk(s)
    ensures |s.cells| == |s.chains|
    ensures Total(s.memory, s.chains[..0]) == 0 && s.chains[..|s.chains|] == s.chains
    ensures FirstChains(s.chains, 0) == {} && FirstChains(s.chains, |s.chains|) == OnChains(s.chains)
  {
  }

  /** Freeing the first i chains leaves chain i alone. */
  lemma Untouched(s: Store, i: nat)
    requires ChainsOk(s) && i < |s.cells|
    ensures Agrees(s.memory, s.memory - FirstChains(s.chains, i), s.chains[i])
    ensures FirstChains(s.chains, i + 1) ==
      FirstChains(s.chains, i) + (set k | 0 <= k < |s.chains[i]| :: s.chains[i][k])
  {
    forall k | 0 <= k < |s.chains[i]|
      ensures s.chains[i][k] in s.memory && s.chains[i][k] !in FirstChains(s.chains, i) {
      assert LinkOk(s, i, k, s.chains[i][k]);
      forall j, l | 0 <= j < i && 0 <= l < |s.chains[j]|
        ensures s.chains[j][l] != s.chains[i][k] { assert LinkOk(s, j, l, s.chains[j][l]); }
    }
  }

  /** icResetNativeCodeCells over all cells, in place: the Sweep step, with every prev pointer
      followed and every free of a state that is still allocated. */
  method ResetCells(s: Store, gauge: int) returns (memory: map<Addr, IcState>, cells: seq<Addr>, live: int)
    requires ChainsOk(s) && AllKnown(s) && (forall a {:trigger a in s.place} :: a in s.place ==> a > MEGA)
    ensures memory == Swept(s).memory && cells == Swept(s).cells && live == gauge - Total(s.memory, s.chains)
  {
    hide ChainsOk, Total;
    memory, cells, live := s.memory, s.cells, gauge;
    SameLength(s);
    var i := 0;
    while i < |s.cells|
      invariant i <= |s.cells| == |s.chains| == |cells|
      invariant memory == s.memory - FirstChains(s.chains, i)
      invariant live == gauge - Total(s.memory, s.chains[..i])
      invariant forall j {:trigger cells[j]} ::
        0 <= j < |cells| ==> cells[j] == if j < i then SweptCell(s.memory, s.cells[j]) else s.cells[j]
    {
      var state := cells[i];
      TotalSplit(s.memory, s.chains, i);
      Untouched(s, i);
      ChainAt(s, i, |s.chains[i]|);
      if state != UNLINKED && state != MEGA {
        var mega := memory[state].kind.Mega?;
        memory, live := FreeChain(s, memory, live, i);
        cells := cells[i := if mega then MEGA else UNLINKED];
      }
      i := i + 1;
    }
  }

  // ----- runs -----

  lemma {:induction false} RunsKeep(r: Run, i: nat)
    requires IsRun(r) && i < |r.states|
    ensures Inv(r.states[i])
  {
    if i > 0 {
      RunsKeep(r, i - 1);
      var _ := r.acts[i - 1];
      hide Inv, Enabled, Next;
      StepKeeps(r.states[i - 1], r.acts[i - 1]);
    }
  }

  lemma StepLater(s: World, act: Act, a: Addr)
    requires Inv(s) && Enabled(s, act) && !act.Sweep? && a in s.store.place && s.store.place[a].OnChain?
    ensures SameState(s.store, Next(s, act).store, a)
  {
    hide ChainsOk, StatesOk, Counted, ThreadsOk, WalkOk, MayLearn, Hits, Covers;
    if act.Cas? {
      CasKeeps(s, act);
    } else if act.WalkCas? {
      WalkCasKeeps(s, act);
    } else if act.Build? {
      BuildKeeps(s, act);
    } else if act.WalkBuild? {
      WalkBuildKeeps(s, act);
    }
  }

  /** From its publication to the next sweep a state is neither freed nor changed, and keeps
      its place on its one chain. */
  lemma {:induction false} PublishedFixed(r: Run, i: nat, j: nat, a: Addr)
    requires IsRun(r) && i <= j < |r.states| && a in r.states[i].store.place && r.states[i].store.place[a].OnChain?
    requires forall k {:trigger r.acts[k]} :: i <= k < j ==> !r.acts[k].Sweep?
    ensures SameState(r.states[i].store, r.states[j].store, a)
  {
    hide Enabled, Next;
    RunsKeep(r, i);
    if i < j {
      PublishedFixed(r, i, j - 1, a);
      RunsKeep(r, j - 1);
      var _ := r.acts[j - 1];
      StepLater(r.states[j - 1], r.acts[j - 1], a);
    }
  }

  /** Every allocated state is on exactly one cell's prev chain or still private to exactly one
      handler, and every published one has the shape of its kind. */
  lemma Partition(r: Run, n: nat)
    requires IsRun(r) && n < |r.states|
    ensures var s := r.states[n].store;
      && |s.chains| == |s.cells|
      && (forall i, k, j, l {:trigger s.chains[i][k], s.chains[j][l]} ::
        (0 <= i < |s.chains| && 0 <= j < |s.chains| && 0 <= k < |s.chains[i]| && 0 <= l < |s.chains[j]| &&
         s.chains[i][k] == s.chains[j][l]) ==>
        i == j && k == l)
      && (forall a {:trigger a in s.memory} ::
        a in s.memory ==> a in s.place && (a in OnChains(s.chains) <==> s.place[a].OnChain?) && StateOk(s.memory[a]))
      && OnChains(s.chains) <= s.memory.Keys
      && s.bytes == Total(s.memory, s.chains)
  {
    RunsKeep(r, n);
    var w := r.states[n];
    var s := w.store;
    hide IsRun, StateOk, Total, ThreadsOk, WalkOk;
    forall i, k | 0 <= i < |s.chains| && 0 <= k < |s.chains[i]|
      ensures s.chains[i][k] in s.memory && s.chains[i][k] in s.place && s.place[s.chains[i][k]] == OnChain(i, k) {
      assert LinkOk(s, i, k, s.chains[i][k]);
    }
    forall a | a in s.memory ensures a in s.place && (a in OnChains(s.chains) <==> s.place[a].OnChain?) {
      assert PlaceOk(w, a, s.place[a]);
    }
  }

  /** How one step may move a cell: not at all; a miss teaches it a class; the walk retires a
      state that targets the old entry; the sweep unlinks it unless it is mega. */
  ghost predicate Moves(s: World, act: Act, s': World, i: nat)
    requires i < |s.store.cells| && i < |s'.store.cells|
  {
    && Known(s.store, s.store.cells[i]) && Known(s'.store, s'.store.cells[i])
    && var st, st' := At(s.store.memory, s.store.cells[i]), At(s'.store.memory, s'.store.cells[i]);
    match act
    case Cas(t) => st' == st || (t < |s.threads| && s.threads[t].Built? && s.threads[t].cell == i &&
      Learned(st, s.threads[t].class_, s.threads[t].target, st'))
    case WalkCas => st' == st || (s.walk.Ready? && Hits(st, s.walk.entry) && Retired(s.store.cells[i], st'))
    case Sweep(_) => s'.store.cells[i] == if st.kind.Mega? then MEGA else UNLINKED
    case _ => st' == st
  }

  lemma CellSame(s: World, act: Act, i: nat)
    requires Inv(s) && Enabled(s, act) && i < |s.store.cells| && !act.Sweep? && i < |Next(s, act).store.cells| &&
      Next(s, act).store.cells[i] == s.store.cells[i]
    ensures Known(s.store, s.store.cells[i]) && Known(Next(s, act).store, s.store.cells[i])
    ensures At(Next(s, act).store.memory, s.store.cells[i]) == At(s.store.memory, s.store.cells[i])
  {
    hide Enabled, Next, ChainsOk, StatesOk, Counted, ThreadsOk, WalkOk;
    CellKnown(s.store, i);
    if s.store.cells[i] > MEGA { StepLater(s, act, s.store.cells[i]); }
  }

  lemma Allocated(s: World, a: Addr)
    requires PlacesOk(s) && a in s.store.place
    ensures a > MEGA
  {
    var _ := s.store.place[a];
  }

  lemma CellMoves(s: World, act: Act, i: nat)
    requires Inv(s) && Enabled(s, act) && i < |s.store.cells|
    ensures i < |Next(s, act).store.cells| && Moves(s, act, Next(s, act), i)
  {
    hide ChainsOk, StatesOk, Counted, PlacesOk, Covers, Hits, Total;
    var s' := Next(s, act);
    CellKnown(s.store, i);
    if act.Sweep? {
    } else if s'.store.cells[i] == s.store.cells[i] {
      CellSame(s, act, i);
    } else if act.Cas? {
      assert PhaseOk(s.store, act.t, s.threads[act.t]);
      Allocated(s, s.threads[act.t].made);
    } else {
      WalkMade(s.store, s.walk);
      Allocated(s, s.walk.made);
    }
  }

  /** A cell that is mega stays mega for the rest of the run. */
  lemma {:induction false} MegaForever(r: Run, i: nat, j: nat, cell: nat)
    requires IsRun(r) && i <= j < |r.states| && cell < |r.states[i].store.cells|
    requires Known(r.states[i].store, r.states[i].store.cells[cell]) &&
      At(r.states[i].store.memory, r.states[i].store.cells[cell]).kind.Mega?
    ensures cell < |r.states[j].store.cells| && Known(r.states[j].store, r.states[j].store.cells[cell]) &&
      At(r.states[j].store.memory, r.states[j].store.cells[cell]).kind.Mega?
  {
    hide Enabled, Next, Inv;
    if i < j {
      MegaForever(r, i, j - 1, cell);
      RunsKeep(r, j - 1);
      var _ := r.acts[j - 1];
      CellMoves(r.states[j - 1], r.acts[j - 1], cell);
    }
  }

  // ----- for runs written out -----

  function Always(target: nat): (nat, nat) -> nat
  {
    (c, n) => target
  }

  const FIRST: IcState := IcState(1, 10, Mono, 1, NULL, [])
}
