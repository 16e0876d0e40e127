/** When an update of an inline cache takes effect (vm/jit/InlineCache.c:56-153, 306-337): a miss
    handler publishes, and the recompiler's walk retires, exactly if nobody has moved the cell since
    they loaded it, although addresses are reused; and the walk looks at every cell once, in order. */
module InlineCacheOrder {
  import opened InlineCache
  import opened InlineCacheInvariant
  import opened InlineCacheRuns

  // ----- chains grow -----

  /** The cell is where it was, or has a new state at the head of its chain. */
  ghost predicate CellOn(s: Store, s': Store, cell: nat)
  {
    && cell < |s.cells| && cell < |s.chains| && cell < |s'.cells| && cell < |s'.chains|
    && ((s'.cells[cell] == s.cells[cell] && s'.chains[cell] == s.chains[cell]) ||
      s'.chains[cell] == s.chains[cell] + [s'.cells[cell]])
  }

  lemma ChainOn(s: World, act: Act, cell: nat)
    requires Inv(s) && Enabled(s, act) && !act.Sweep? && cell < |s.store.cells|
    ensures CellOn(s.store, Next(s, act).store, cell)
  {
    hide StatesOk, Counted, PlacesOk, ThreadsOk, WalkOk, ChainOk, MayLearn, Hits, Covers, Bytes;
  }

  ghost predicate NoSweep(r: Run, i: nat, j: nat)
  {
    j < |r.states| && forall k {:trigger r.acts[k]} :: i <= k < j && k < |r.acts| ==> !r.acts[k].Sweep?
  }

  lemma {:induction false} ChainsGrow(r: Run, i: nat, j: nat, cell: nat)
    requires IsRun(r) && i <= j && NoSweep(r, i, j) && cell < |r.states[i].store.cells|
    ensures Inv(r.states[i]) && Inv(r.states[j])
    ensures cell < |r.states[i].store.chains| && cell < |r.states[j].store.cells| == |r.states[j].store.chains|
    ensures r.states[i].store.chains[cell] <= r.states[j].store.chains[cell]
    ensures |r.states[j].store.chains[cell]| == |r.states[i].store.chains[cell]| ==>
      r.states[j].store.cells[cell] == r.states[i].store.cells[cell]
  {
    RunsKeep(r, i);
    RunsKeep(r, j);
    Lengths(r.states[i].store);
    Lengths(r.states[j].store);
    hide Inv, Enabled, Next, CellOn;
    if i < j {
      var _ := r.acts[j - 1];
      ChainsGrow(r, i, j - 1, cell);
      ChainOn(r.states[j - 1], r.acts[j - 1], cell);
      Prefixes(r.states[j - 1].store, r.states[j].store, cell);
    }
  }

  lemma Lengths(s: Store)
    requires ChainsOk(s)
    ensures |s.cells| == |s.chains|
  {
  }

  lemma Prefixes(s: Store, s': Store, cell: nat)
    requires CellOn(s, s', cell)
    ensures s.chains[cell] <= s'.chains[cell]
    ensures |s'.chains[cell]| == |s.chains[cell]| ==> s'.cells[cell] == s.cells[cell]
  {
  }

  /** A cell whose chain is longer points elsewhere. */
  lemma LongerDiffers(s: World, t: World, cell: nat)
    requires Inv(s) && Inv(t) && cell < |s.store.cells| && cell < |t.store.cells| && cell < |s.store.chains| &&
      cell < |t.store.chains|
    requires s.store.chains[cell] < t.store.chains[cell]
    ensures t.store.cells[cell] != s.store.cells[cell]
  {
    hide StatesOk, Counted, ThreadsOk, WalkOk;
    var c, d := s.store.chains[cell], t.store.chains[cell];
    assert ChainOk(s.store, cell) && ChainOk(t.store, cell);
    assert LinkOk(t.store, cell, |d| - 1, d[|d| - 1]);
    if c != [] { assert LinkOk(t.store, cell, |c| - 1, d[|c| - 1]); }
    hide ChainsOk;
    assert d[|d| - 1] in t.store.place;
  }

  /** The cell has pointed to the same address all the while. */
  ghost predicate Unmoved(r: Run, i: nat, j: nat, cell: nat)
  {
    forall k {:trigger r.states[k]} :: i <= k <= j && k < |r.states| && i < |r.states| ==>
      cell < |r.states[i].store.cells| && cell < |r.states[k].store.cells| &&
      r.states[k].store.cells[cell] == r.states[i].store.cells[cell]
  }

  /** Between two sweeps a cell that points where it pointed before has not moved in between. */
  lemma NeverBack(r: Run, i: nat, j: nat, cell: nat)
    requires IsRun(r) && i <= j && NoSweep(r, i, j) && cell < |r.states[i].store.cells|
    ensures cell < |r.states[j].store.cells|
    ensures r.states[j].store.cells[cell] == r.states[i].store.cells[cell] <==> Unmoved(r, i, j, cell)
  {
    hide IsRun, Inv;
    ChainsGrow(r, i, j, cell);
    if r.states[j].store.cells[cell] == r.states[i].store.cells[cell] {
      forall k | i <= k <= j
        ensures cell < |r.states[k].store.cells| && r.states[k].store.cells[cell] == r.states[i].store.cells[cell] {
        ChainsGrow(r, i, k, cell);
        ChainsGrow(r, k, j, cell);
        if |r.states[j].store.chains[cell]| > |r.states[i].store.chains[cell]| {
          LongerDiffers(r.states[i], r.states[j], cell);
        }
      }
    } else {
      var _ := r.states[j];
    }
  }

  // ----- miss handlers -----

  predicate Own(act: Act, t: nat)
  {
    match act
    case Lookup(u, _, _, _) => u == t
    case Load(u) => u == t
    case Build(u, _, _) => u == t
    case Covered(u) => u == t
    case Cas(u) => u == t
    case CountRead(u) => u == t
    case CountWrite(u) => u == t
    case _ => false
  }

  ghost predicate HasSeen(p: Phase, cell: nat, c: nat, target: nat, seen: Addr)
  {
    (p.Loaded? || p.Built?) && p.cell == cell && p.class_ == c && p.target == target && p.seen == seen
  }

  lemma OthersLeave(s: World, act: Act, t: nat)
    requires Enabled(s, act) && t < |s.threads| && !Own(act, t)
    ensures t < |Next(s, act).threads| && Next(s, act).threads[t] == s.threads[t]
  {
    hide MayLearn, Hits, Covers, AllKnown, Publish, Discard;
  }

  /** From its load to its compare-and-swap a handler keeps what it was after and what it saw, and
      no sweep comes in between. */
  lemma {:induction false} SeenKept(r: Run, i: nat, j: nat, t: nat)
    requires IsRun(r) && i < j < |r.states| && r.acts[i] == Load(t)
    requires forall k {:trigger r.acts[k]} :: i < k < j && Own(r.acts[k], t) ==> r.acts[k].Build?
    ensures t < |r.states[i].threads| && r.states[i].threads[t].Found? && t < |r.states[j].threads|
    ensures var p := r.states[i].threads[t];
      && p.cell < |r.states[i].store.cells|
      && HasSeen(r.states[j].threads[t], p.cell, p.class_, p.target, r.states[i].store.cells[p.cell])
    ensures NoSweep(r, i, j)
  {
    hide Enabled, Next, Own;
    if j == i + 1 {
      var _ := r.acts[i];
      Sees(r.states[i], r.acts[i]);
    } else {
      SeenKept(r, i, j - 1, t);
      var act := r.acts[j - 1];
      if Own(act, t) {
        OwnBuild(r.states[j - 1], act, t);
      } else {
        OthersLeave(r.states[j - 1], act, t);
      }
      NotSwept(r.states[j - 1], act, t);
    }
  }

  lemma Sees(s: World, act: Act)
    requires Enabled(s, act) && act.Load?
    ensures act.t < |s.threads| == |Next(s, act).threads| && s.threads[act.t].Found?
    ensures s.threads[act.t].cell < |s.store.cells|
    ensures var p := s.threads[act.t];
      HasSeen(Next(s, act).threads[act.t], p.cell, p.class_, p.target, s.store.cells[p.cell])
  {
  }

  lemma OwnBuild(s: World, act: Act, t: nat)
    requires Enabled(s, act) && act.Build? && Own(act, t)
    ensures t < |s.threads| && s.threads[t].Loaded? && t < |Next(s, act).threads|
    ensures HasSeen(Next(s, act).threads[t], s.threads[t].cell, s.threads[t].class_, s.threads[t].target,
      s.threads[t].seen)
  {
    hide MayLearn;
  }

  lemma NotSwept(s: World, act: Act, t: nat)
    requires Enabled(s, act) && t < |s.threads| && !s.threads[t].Idle?
    ensures !act.Sweep?
  {
    hide MayLearn, Hits, Covers, AllKnown;
  }

  /** Exactly one cell has moved, to a state that knows the class too. */
  ghost predicate Taught(s: Store, s': Store, cell: nat, c: nat, target: nat)
  {
    && cell < |s.cells| == |s'.cells| && s'.cells == s.cells[cell := s'.cells[cell]]
    && Known(s, s.cells[cell]) && s'.cells[cell] in s'.memory
    && Learned(At(s.memory, s.cells[cell]), c, target, s'.memory[s'.cells[cell]])
  }

  lemma CasDoes(s: World, act: Act)
    requires Inv(s) && Enabled(s, act) && act.Cas?
    ensures var p := s.threads[act.t];
      if s.store.cells[p.cell] == p.seen then Taught(s.store, Next(s, act).store, p.cell, p.class_, p.target)
      else Next(s, act).store.cells == s.store.cells && Next(s, act).store.chains == s.store.chains
  {
    hide StatesOk, Counted, WalkOk, PlacesOk, Learned, ChainOk;
    InPhase(s, act.t);
    CellKnown(s.store, s.threads[act.t].cell);
    hide ThreadsOk, ChainsOk;
  }

  /** A miss handler's class gets into the cell exactly if nobody has moved the cell since the
      handler loaded it; otherwise no cell is touched. */
  lemma PublishesIff(r: Run, i: nat, j: nat, t: nat)
    requires IsRun(r) && i < j < |r.acts| && r.acts[i] == Load(t) && r.acts[j] == Cas(t)
    requires forall k {:trigger r.acts[k]} :: i < k < j && Own(r.acts[k], t) ==> r.acts[k].Build?
    ensures t < |r.states[i].threads| && r.states[i].threads[t].Found?
    ensures var p := r.states[i].threads[t];
      if Unmoved(r, i, j, p.cell) then Taught(r.states[j].store, r.states[j + 1].store, p.cell, p.class_, p.target)
      else r.states[j + 1].store.cells == r.states[j].store.cells
  {
    hide Taught, Unmoved, Inv, NoSweep;
    SeenKept(r, i, j, t);
    NeverBack(r, i, j, r.states[i].threads[t].cell);
    RunsKeep(r, j);
    CasDoes(r.states[j], r.acts[j]);
  }

  // ----- the walk -----

  predicate WalkAct(act: Act)
  {
    act.WalkLoad? || act.WalkBuild? || act.WalkSkip? || act.WalkCas? || act.WalkCountRead? || act.WalkCountWrite? ||
      act.WalkEnd?
  }

  /** How many cells the walk has loaded. */
  function Loads(w: Walk): nat
  {
    match w
    case NoWalk => 0
    case Looked(_, i, _) => i + 1
    case Ready(_, i, _, _) => i + 1
    case _ => w.i
  }

  ghost function LoadsIn(acts: seq<Act>): nat
  {
    if acts == [] then 0
    else LoadsIn(acts[..|acts| - 1]) + if acts[|acts| - 1].WalkLoad? then 1 else 0
  }

  lemma WalkOn(s: World, act: Act)
    requires Enabled(s, act) && !s.walk.NoWalk? && !act.WalkEnd?
    ensures !Next(s, act).walk.NoWalk? && Next(s, act).walk.entry == s.walk.entry
    ensures Loads(Next(s, act).walk) == Loads(s.walk) + if act.WalkLoad? then 1 else 0
    ensures |Next(s, act).store.cells| == |s.store.cells|
    ensures act.WalkLoad? ==> s.walk.Walking? && s.walk.i == Loads(s.walk) < |s.store.cells|
  {
    hide MayLearn, Hits, Covers, AllKnown, Bytes;
  }

  /** The walk loads cell after cell: at each load it is at the cell whose number is that of the
      loads before it, and it ends when all cells have had theirs. */
  lemma {:induction false} WalkInOrder(r: Run, i: nat, j: nat)
    requires IsRun(r) && i < j < |r.states| && r.acts[i].Republish?
    requires forall k {:trigger r.acts[k]} :: i < k < j ==> !r.acts[k].WalkEnd?
    ensures !r.states[j].walk.NoWalk? && r.states[j].walk.entry == r.acts[i].entry
    ensures Loads(r.states[j].walk) == LoadsIn(r.acts[i + 1..j])
    ensures |r.states[j].store.cells| == |r.states[i].store.cells|
    ensures j < |r.acts| && r.acts[j].WalkLoad? ==>
      r.states[j].walk.Walking? && r.states[j].walk.i == LoadsIn(r.acts[i + 1..j]) < |r.states[i].store.cells|
    ensures j < |r.acts| && r.acts[j].WalkEnd? ==> LoadsIn(r.acts[i + 1..j]) == |r.states[i].store.cells|
  {
    hide Enabled, Next, Inv, Loads;
    if j == i + 1 {
      assert r.acts[i + 1..j] == [];
      WalkBegins(r.states[i], r.acts[i]);
    } else {
      WalkInOrder(r, i, j - 1);
      var acts := r.acts[i + 1..j];
      assert acts[..|acts| - 1] == r.acts[i + 1..j - 1] && acts[|acts| - 1] == r.acts[j - 1];
      WalkOn(r.states[j - 1], r.acts[j - 1]);
    }
    if j < |r.acts| {
      RunsKeep(r, j);
      var _ := r.acts[j];
      if r.acts[j].WalkLoad? { WalkOn(r.states[j], r.acts[j]); }
      if r.acts[j].WalkEnd? { WalkDone(r.states[j], r.acts[j]); }
    }
  }

  lemma WalkBegins(s: World, act: Act)
    requires Enabled(s, act) && act.Republish?
    ensures Next(s, act).walk.Walking? && Next(s, act).walk.entry == act.entry && Loads(Next(s, act).walk) == 0
    ensures Next(s, act).store == s.store
  {
  }

  lemma WalkDone(s: World, act: Act)
    requires Inv(s) && Enabled(s, act) && act.WalkEnd?
    ensures Loads(s.walk) == |s.store.cells|
  {
    hide ChainsOk, StatesOk, Counted, PlacesOk, ThreadsOk;
  }

  lemma {:induction false} WalkSeenKept(r: Run, i: nat, j: nat)
    requires IsRun(r) && i < j < |r.states| && r.acts[i].WalkLoad?
    requires forall k {:trigger r.acts[k]} :: i < k < j && WalkAct(r.acts[k]) ==> r.acts[k].WalkBuild?
    ensures r.states[i].walk.Walking? && r.states[i].walk.i < |r.states[i].store.cells|
    ensures var w, v := r.states[j].walk, r.states[i].walk;
      (w.Looked? || w.Ready?) && w.i == v.i && w.entry == v.entry && w.seen == r.states[i].store.cells[v.i]
    ensures NoSweep(r, i, j)
  {
    hide Enabled, Next, WalkAct;
    if j == i + 1 {
      WalkSees(r.states[i], r.acts[i]);
    } else {
      WalkSeenKept(r, i, j - 1);
      WalkWaits(r.states[j - 1], r.acts[j - 1]);
    }
  }

  lemma WalkSees(s: World, act: Act)
    requires Enabled(s, act) && act.WalkLoad?
    ensures s.walk.Walking? && s.walk.i < |s.store.cells|
    ensures Next(s, act).walk == Looked(s.walk.entry, s.walk.i, s.store.cells[s.walk.i])
  {
  }

  lemma WalkWaits(s: World, act: Act)
    requires Enabled(s, act) && (s.walk.Looked? || s.walk.Ready?) && (WalkAct(act) ==> act.WalkBuild?)
    ensures var w := Next(s, act).walk;
      (w.Looked? || w.Ready?) && w.i == s.walk.i && w.entry == s.walk.entry && w.seen == s.walk.seen
    ensures !act.Sweep?
  {
    hide MayLearn, Hits, Covers, AllKnown;
  }

  /** Exactly one cell has moved, to an unlinked state in front of the one that goes to the entry. */
  ghost predicate Unlinks(s: Store, s': Store, cell: nat, entry: nat)
  {
    && cell < |s.cells| == |s'.cells| && s'.cells == s.cells[cell := s'.cells[cell]]
    && Known(s, s.cells[cell]) && s'.cells[cell] in s'.memory && Hits(At(s.memory, s.cells[cell]), entry)
    && Retired(s.cells[cell], s'.memory[s'.cells[cell]])
  }

  lemma WalkCasDoes(s: World, act: Act)
    requires Inv(s) && Enabled(s, act) && act.WalkCas?
    ensures if s.store.cells[s.walk.i] == s.walk.seen then Unlinks(s.store, Next(s, act).store, s.walk.i, s.walk.entry)
      else Next(s, act).store.cells == s.store.cells
  {
    hide StatesOk, Counted, PlacesOk, ThreadsOk, ChainOk, Hits;
    CellKnown(s.store, s.walk.i);
    hide ChainsOk;
  }

  /** The walk unlinks a cell that goes to the old entry exactly if nobody has moved the cell since
      the walk loaded it. */
  lemma RetiresIff(r: Run, i: nat, j: nat)
    requires IsRun(r) && i < j < |r.acts| && r.acts[i].WalkLoad? && r.acts[j].WalkCas?
    requires forall k {:trigger r.acts[k]} :: i < k < j && WalkAct(r.acts[k]) ==> r.acts[k].WalkBuild?
    ensures r.states[i].walk.Walking?
    ensures var w := r.states[i].walk;
      if Unmoved(r, i, j, w.i) then Unlinks(r.states[j].store, r.states[j + 1].store, w.i, w.entry)
      else r.states[j + 1].store.cells == r.states[j].store.cells
  {
    hide Unlinks, Unmoved, Inv, NoSweep;
    WalkSeenKept(r, i, j);
    NeverBack(r, i, j, r.states[i].walk.i);
    RunsKeep(r, j);
    WalkCasDoes(r.states[j], r.acts[j]);
  }

  /** Whether the walk unlinks or skips the cell depends on whether it goes to the old entry. */
  lemma LookedDecides(s: World, act: Act)
    requires Inv(s) && Enabled(s, act) && s.walk.Looked? && WalkAct(act)
    ensures Known(s.store, s.walk.seen)
    ensures if Hits(At(s.store.memory, s.walk.seen), s.walk.entry) then Next(s, act).walk.Ready?
      else Next(s, act).walk == Walking(s.walk.entry, s.walk.i + 1)
  {
    hide Inv, Hits;
  }
}
