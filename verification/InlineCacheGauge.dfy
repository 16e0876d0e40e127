/** The byte gauge of the inline caches, stateBytesLive. A publish adds to it with a plain read
    and a later write, after the compare-and-swap, so updates by different threads can overlap.
    The gauge never counts too much; it is exact as long as no write falls between another
    update's read and write, and once one has, it stays too small for ever. */
module InlineCacheGauge {
  import opened InlineCache
  import opened InlineCacheInvariant
  import opened InlineCacheRuns

  /** What one thread still owes the gauge: nothing, bytes, or bytes on top of a value read. */
  datatype Share = Clear | Due(bytes: nat) | Held(bytes: nat, read: int)

  /** The gauge, the bytes published and not freed, and every thread's share. */
  datatype Ledger = Ledger(gauge: int, bytes: int, shares: seq<Share>)

  datatype Move = Stay | Owe(i: nat, n: nat) | Read(i: nat) | Write(i: nat) | Settle

  function Owed(share: Share): nat
  {
    if share.Clear? then 0 else share.bytes
  }

  function Pending(shares: seq<Share>): nat
  {
    if shares == [] then 0 else Pending(shares[..|shares| - 1]) + Owed(shares[|shares| - 1])
  }

  ghost predicate CanMove(l: Ledger, m: Move)
  {
    match m
    case Stay => true
    case Owe(i, n) => i < |l.shares| && l.shares[i].Clear? && n > 0
    case Read(i) => i < |l.shares| && l.shares[i].Due?
    case Write(i) => i < |l.shares| && l.shares[i].Held?
    case Settle => Quiet(l.shares)
  }

  ghost predicate Quiet(shares: seq<Share>)
  {
    forall j {:trigger shares[j]} :: 0 <= j < |shares| ==> shares[j].Clear?
  }

  function Moved(l: Ledger, m: Move): Ledger
    requires CanMove(l, m)
  {
    match m
    case Stay => l
    case Owe(i, n) => l.(bytes := l.bytes + n, shares := l.shares[i := Due(n)])
    case Read(i) => l.(shares := l.shares[i := Held(l.shares[i].bytes, l.gauge)])
    case Write(i) => l.(gauge := l.shares[i].read + l.shares[i].bytes, shares := l.shares[i := Clear])
    case Settle => l.(gauge := l.gauge - l.bytes, bytes := 0)
  }

  // ----- sums -----

  lemma {:induction false} PendingUpdate(shares: seq<Share>, i: nat, x: Share)
    requires i < |shares|
    ensures Pending(shares[i := x]) == Pending(shares) - Owed(shares[i]) + Owed(x)
  {
    var last := |shares| - 1;
    assert shares[i := x][last] == if i == last then x else shares[last];
    if i == last {
      assert shares[i := x][..last] == shares[..last];
    } else {
      assert shares[i := x][..last] == shares[..last][i := x];
      PendingUpdate(shares[..last], i, x);
    }
  }

  lemma {:induction false} PendingQuiet(shares: seq<Share>)
    requires Quiet(shares)
    ensures Pending(shares) == 0
  {
    if shares != [] {
      var _ := shares[|shares| - 1];
      PendingQuiet(shares[..|shares| - 1]);
    }
  }

  // ----- the ledger -----

  /** By how much the gauge, with all that is still owed, falls short; */
  function Short(l: Ledger): int
  {
    l.bytes - l.gauge - Pending(l.shares)
  }

  /** and by how much it will when share i is written. */
  function Slack(l: Ledger, i: nat): int
    requires i < |l.shares| && l.shares[i].Held?
  {
    l.bytes - l.shares[i].read - Pending(l.shares)
  }

  ghost predicate Heldby(l: Ledger, i: nat)
  {
    i < |l.shares| && l.shares[i].Held?
  }

  /** No update will, or has, overcounted. */
  ghost predicate Bounded(l: Ledger)
  {
    && Short(l) >= 0
    && (forall i {:trigger Heldby(l, i)} :: Heldby(l, i) ==> Slack(l, i) >= 0)
    && (forall i {:trigger l.shares[i]} :: 0 <= i < |l.shares| && !l.shares[i].Clear? ==> l.shares[i].bytes > 0)
  }

  /** The gauge is right, and the only update under way, if any, will keep it so. */
  ghost predicate Exact(l: Ledger)
  {
    Short(l) == 0 && forall i {:trigger Heldby(l, i)} :: Heldby(l, i) ==> Slack(l, i) == 0
  }

  /** Bytes have been lost, or are going to be. */
  ghost predicate Spoiled(l: Ledger)
  {
    || (exists i :: Heldby(l, i) && Slack(l, i) > 0)
    || (Short(l) > 0 && forall i {:trigger Heldby(l, i)} :: Heldby(l, i) ==> Slack(l, i) > 0)
  }

  /** A write between another update's read and write. */
  ghost predicate Overlaps(l: Ledger, m: Move)
  {
    m.Write? && exists j :: j != m.i && Heldby(l, j)
  }

  /** One move changes the shortfall only by a write, which replaces it by the writer's slack. */
  lemma MoveShort(l: Ledger, m: Move)
    requires CanMove(l, m)
    ensures Short(Moved(l, m)) == if m.Write? then Slack(l, m.i) else Short(l)
  {
    match m
    case Stay =>
    case Owe(i, n) => PendingUpdate(l.shares, i, Due(n));
    case Read(i) => PendingUpdate(l.shares, i, Held(l.shares[i].bytes, l.gauge));
    case Write(i) => PendingUpdate(l.shares, i, Clear);
    case Settle => PendingQuiet(l.shares);
  }

  /** A fresh read has the shortfall as its slack; every write adds its bytes to the others'. */
  lemma MoveSlack(l: Ledger, m: Move, j: nat)
    requires CanMove(l, m) && Heldby(Moved(l, m), j)
    ensures m == Read(j) || Heldby(l, j)
    ensures Slack(Moved(l, m), j) ==
      if m == Read(j) then Short(l) else if m.Write? then Slack(l, j) + l.shares[m.i].bytes else Slack(l, j)
  {
    match m
    case Stay =>
    case Owe(i, n) => PendingUpdate(l.shares, i, Due(n));
    case Read(i) => PendingUpdate(l.shares, i, Held(l.shares[i].bytes, l.gauge));
    case Write(i) => PendingUpdate(l.shares, i, Clear);
    case Settle => PendingQuiet(l.shares);
  }

  lemma MoveBounded(l: Ledger, m: Move)
    requires CanMove(l, m) && Bounded(l)
    ensures Bounded(Moved(l, m))
  {
    hide Short, Slack;
    MoveShort(l, m);
    if m.Write? { assert Heldby(l, m.i); }
    forall j | Heldby(Moved(l, m), j) ensures Slack(Moved(l, m), j) >= 0 {
      MoveSlack(l, m, j);
    }
  }

  lemma MoveExact(l: Ledger, m: Move)
    requires CanMove(l, m) && Exact(l) && !Overlaps(l, m)
    ensures Exact(Moved(l, m))
  {
    hide Short, Slack;
    MoveShort(l, m);
    if m.Write? { assert Heldby(l, m.i); }
    forall j | Heldby(Moved(l, m), j) ensures Slack(Moved(l, m), j) == 0 {
      MoveSlack(l, m, j);
      if m.Write? { assert j != m.i; }
    }
  }

  /** The update that another one's write fell into will lose that write's bytes. */
  lemma OverlapSpoils(l: Ledger, m: Move)
    requires CanMove(l, m) && Bounded(l) && Overlaps(l, m)
    ensures Spoiled(Moved(l, m))
  {
    hide Short, Slack;
    var j: nat :| j != m.i && Heldby(l, j);
    assert Heldby(Moved(l, m), j);
    MoveSlack(l, m, j);
  }

  /** The writer's slack becomes the shortfall, and every other update still to be written has
      lost the bytes just added. */
  lemma WriteSpoils(l: Ledger, m: Move)
    requires CanMove(l, m) && Bounded(l) && m.Write? && Slack(l, m.i) > 0
    ensures Spoiled(Moved(l, m))
  {
    hide Short, Slack;
    MoveShort(l, m);
    forall j | Heldby(Moved(l, m), j) ensures Slack(Moved(l, m), j) > 0 {
      MoveSlack(l, m, j);
      assert Heldby(l, j);
    }
  }

  lemma MoveSpoiled(l: Ledger, m: Move)
    requires CanMove(l, m) && Bounded(l) && Spoiled(l)
    ensures Spoiled(Moved(l, m))
  {
    hide Short, Slack;
    assert m.Write? ==> Heldby(l, m.i);
    if m.Write? && Slack(l, m.i) > 0 {
      WriteSpoils(l, m);
    } else if i: nat :| Heldby(l, i) && Slack(l, i) > 0 {
      assert Heldby(Moved(l, m), i);
      MoveSlack(l, m, i);
    } else {
      MoveShort(l, m);
      forall j | Heldby(Moved(l, m), j) ensures Slack(Moved(l, m), j) > 0 {
        MoveSlack(l, m, j);
      }
    }
  }

  // ----- the inline caches keep such a ledger -----

  function ShareOf(p: Phase): Share
  {
    match p
    case Counting(n) => Due(n)
    case Adding(n, read) => Held(n, read)
    case _ => Clear
  }

  function WalkShare(w: Walk): Share
  {
    match w
    case WalkCounting(_, _, n) => Due(n)
    case WalkAdding(_, _, n, read) => Held(n, read)
    case _ => Clear
  }

  /** The handlers' shares, then the walk's. */
  ghost function Shares(s: World): (r: seq<Share>)
    ensures |r| == |s.threads| + 1
    ensures forall t {:trigger r[t]} :: 0 <= t < |s.threads| ==> r[t] == ShareOf(s.threads[t])
    ensures r[|s.threads|] == WalkShare(s.walk)
  {
    seq(|s.threads|, t requires 0 <= t < |s.threads| => ShareOf(s.threads[t])) + [WalkShare(s.walk)]
  }

  ghost function LedgerOf(s: World): Ledger
  {
    Ledger(s.gauge, s.store.bytes, Shares(s))
  }

  ghost function MoveOf(s: World, act: Act): Move
    requires Enabled(s, act)
  {
    match act
    case Cas(t) =>
      if s.store.cells[s.threads[t].cell] == s.threads[t].seen then Owe(t, Bytes(s.store.memory[s.threads[t].made]))
        else Stay
    case CountRead(t) => Read(t)
    case CountWrite(t) => Write(t)
    case WalkCas => if s.store.cells[s.walk.i] == s.walk.seen then Owe(|s.threads|, Bytes(s.store.memory[s.walk.made]))
      else Stay
    case WalkCountRead => Read(|s.threads|)
    case WalkCountWrite => Write(|s.threads|)
    case Sweep(_) => Settle
    case _ => Stay
  }

  lemma ThreadShare(s: World, s': World, t: nat)
    requires t < |s.threads| && s'.walk == s.walk && |s'.threads| == |s.threads| &&
      s'.threads == s.threads[t := s'.threads[t]]
    ensures Shares(s') == Shares(s)[t := ShareOf(s'.threads[t])]
  {
    forall j | 0 <= j < |s.threads| ensures Shares(s')[j] == Shares(s)[t := ShareOf(s'.threads[t])][j] {
    }
  }

  lemma ThreadMoves(s: World, act: Act)
    requires Enabled(s, act)
    requires act.Lookup? || act.Load? || act.Build? || act.Covered? || act.Cas? || act.CountRead? || act.CountWrite?
    ensures CanMove(LedgerOf(s), MoveOf(s, act)) && LedgerOf(Next(s, act)) == Moved(LedgerOf(s), MoveOf(s, act))
  {
    var s' := Next(s, act);
    ThreadShare(s, s', act.t);
    var share := Shares(s)[act.t];
    assert Shares(s)[act.t := share] == Shares(s);
  }

  lemma WalkMoves(s: World, act: Act)
    requires Enabled(s, act)
    requires !(act.Lookup? || act.Load? || act.Build? || act.Covered? || act.Cas? || act.CountRead? ||
      act.CountWrite?) && !act.Sweep?
    ensures CanMove(LedgerOf(s), MoveOf(s, act)) && LedgerOf(Next(s, act)) == Moved(LedgerOf(s), MoveOf(s, act))
  {
    var s' := Next(s, act);
    assert Shares(s') == Shares(s)[|s.threads| := WalkShare(s'.walk)];
    var share := Shares(s)[|s.threads|];
    assert Shares(s)[|s.threads| := share] == Shares(s);
  }

  /** Every step is a move of the ledger; a sweep settles it because the bytes published and not
      freed are those of the chains it frees. */
  lemma StepMoves(s: World, act: Act)
    requires Enabled(s, act) && Counted(s.store)
    ensures CanMove(LedgerOf(s), MoveOf(s, act)) && LedgerOf(Next(s, act)) == Moved(LedgerOf(s), MoveOf(s, act))
  {
    hide Total;
    if act.Lookup? || act.Load? || act.Build? || act.Covered? || act.Cas? || act.CountRead? || act.CountWrite? {
      ThreadMoves(s, act);
    } else if act.Sweep? {
      assert Shares(Next(s, act)) == Shares(s);
      assert Quiet(Shares(s));
    } else {
      WalkMoves(s, act);
    }
  }

  ghost predicate Overlapping(s: World, act: Act)
    requires Enabled(s, act)
  {
    Overlaps(LedgerOf(s), MoveOf(s, act))
  }

  /** No write of the first n steps fell between another update's read and write. */
  ghost predicate Tidy(r: Run, n: nat)
    requires IsRun(r) && n < |r.states|
  {
    forall k {:trigger r.acts[k]} :: 0 <= k < n ==> !Overlapping(r.states[k], r.acts[k])
  }

  lemma {:induction false} RunLedger(r: Run, n: nat)
    requires IsRun(r) && n < |r.states|
    ensures Bounded(LedgerOf(r.states[n]))
    ensures if Tidy(r, n) then Exact(LedgerOf(r.states[n])) else Spoiled(LedgerOf(r.states[n]))
  {
    if n == 0 {
      PendingQuiet(Shares(r.states[0]));
    } else {
      RunLedger(r, n - 1);
      RunsKeep(r, n - 1);
      RunStep(r, n);
    }
  }

  lemma RunStep(r: Run, n: nat)
    requires IsRun(r) && 0 < n < |r.states|
    requires Bounded(LedgerOf(r.states[n - 1])) && Counted(r.states[n - 1].store)
    requires if Tidy(r, n - 1) then Exact(LedgerOf(r.states[n - 1])) else Spoiled(LedgerOf(r.states[n - 1]))
    ensures Bounded(LedgerOf(r.states[n]))
    ensures if Tidy(r, n) then Exact(LedgerOf(r.states[n])) else Spoiled(LedgerOf(r.states[n]))
  {
    hide Enabled, Next, Init, Exact, Spoiled, Bounded, Overlaps, MoveOf, LedgerOf, Counted, Moved, CanMove;
    var s, act := r.states[n - 1], r.acts[n - 1];
    StepMoves(s, act);
    var l, m := LedgerOf(s), MoveOf(s, act);
    MoveBounded(l, m);
    if !Tidy(r, n - 1) {
      MoveSpoiled(l, m);
    } else if Overlapping(s, act) {
      OverlapSpoils(l, m);
    } else {
      MoveExact(l, m);
    }
  }

  /** In every run the gauge and the publishes not yet counted add up to at most the bytes of the
      states on the chains: to exactly that if no two updates overlapped; and if two did, to less
      whenever no update is between its read and its write, whatever runs in between, sweeps
      included. */
  lemma GaugeExact(r: Run, n: nat)
    requires IsRun(r) && n < |r.states|
    ensures var s := r.states[n];
      var counted, held := s.gauge + Pending(Shares(s)), Total(s.store.memory, s.store.chains);
      && counted <= held
      && (Tidy(r, n) ==> counted == held)
      && ((forall i {:trigger Shares(s)[i]} :: 0 <= i <= |s.threads| ==> !Shares(s)[i].Held?) ==>
        (counted == held <==> Tidy(r, n)))
  {
    hide IsRun;
    RunLedger(r, n);
    RunsKeep(r, n);
    hide Tidy, Total;
    var s := r.states[n];
    assert s.store.bytes == Total(s.store.memory, s.store.chains);
  }

  lemma Alone(s: World, m: Move)
    requires CanMove(LedgerOf(s), m)
    requires forall i, j {:trigger Shares(s)[i], Shares(s)[j]} ::
      0 <= i < j <= |s.threads| ==> Shares(s)[i].Clear? || Shares(s)[j].Clear?
    ensures !Overlaps(LedgerOf(s), m)
  {
    if m.Write? {
      forall j: nat | Heldby(LedgerOf(s), j) ensures j == m.i {
        var a, b := Shares(s)[m.i], Shares(s)[j];
      }
    }
  }

  /** One worker: at any time at most one of the handlers and the walk has an update under way. */
  lemma OneWorker(r: Run, n: nat)
    requires IsRun(r) && n < |r.states|
    requires forall k, i, j {:trigger Shares(r.states[k])[i], Shares(r.states[k])[j]} ::
      0 <= k < n && 0 <= i < j <= |r.states[k].threads| ==>
        Shares(r.states[k])[i].Clear? || Shares(r.states[k])[j].Clear?
    ensures var s := r.states[n]; s.gauge + Pending(Shares(s)) == Total(s.store.memory, s.store.chains)
  {
    forall k | 0 <= k < n ensures !Overlapping(r.states[k], r.acts[k]) {
      RunsKeep(r, k);
      StepMoves(r.states[k], r.acts[k]);
      Alone(r.states[k], MoveOf(r.states[k], r.acts[k]));
    }
    assert Tidy(r, n);
    GaugeExact(r, n);
  }

  // ----- a lost update -----

  ghost predicate Steps(s: World, act: Act, s': World)
  {
    Enabled(s, act) && Next(s, act) == s'
  }

  ghost function WithCells(cells: nat): World
  {
    World(Store(map[], seq(cells, i => UNLINKED), seq(cells, i => 0), 0, seq(cells, i => []), map[]), 0, [Idle, Idle],
      NoWalk, Always(10))
  }

  /** Two cells and two handlers; the first handler's cell is bound when first, the second's when
      second. */
  ghost function Pair(first: bool, second: bool, gauge: int, p: Phase, q: Phase): World
  {
    var memory := (if first then map[3 := FIRST] else map[]) + (if second then map[4 := FIRST] else map[]);
    var place := (if first then map[3 := OnChain(0, 0)] else map[]) +
      (if second then map[4 := OnChain(1, 0)] else map[]);
    var bytes := (if first then 56 else 0) + (if second then 56 else 0);
    World(Store(memory, [if first then 3 else UNLINKED, if second then 4 else UNLINKED], [0, 0], bytes,
                [if first then [3] else [], if second then [4] else []], place), gauge, [p, q], NoWalk, Always(10))
  }

  ghost function FirstBuilt(): World
  {
    var s := Pair(false, false, 0, Built(0, 1, 10, UNLINKED, 3), Idle);
    s.(store := s.store.(memory := map[3 := FIRST], place := map[3 := OfThread(0)]))
  }

  ghost function SecondBuilt(): World
  {
    var s := Pair(true, false, 0, Counting(56), Built(1, 1, 10, UNLINKED, 4));
    s.(store := s.store.(memory := map[3 := FIRST, 4 := FIRST], place := map[3 := OnChain(0, 0), 4 := OfThread(1)]))
  }

  lemma Cells()
    ensures Steps(WithCells(0), NewCell(0), WithCells(1))
    ensures Steps(WithCells(1), NewCell(0), Pair(false, false, 0, Idle, Idle))
  {
    var s := Next(WithCells(0), NewCell(0)).store;
    assert s.cells == WithCells(1).store.cells && s.selectors == WithCells(1).store.selectors &&
      s.chains == WithCells(1).store.chains;
    var s' := Next(WithCells(1), NewCell(0)).store;
    assert s'.cells == [UNLINKED, UNLINKED] && s'.selectors == [0, 0] && s'.chains == [[], []];
  }

  lemma FirstBinds()
    ensures Steps(Pair(false, false, 0, Idle, Idle), Lookup(0, 0, 1, 10), Pair(false, false, 0, Found(0, 1, 10), Idle))
    ensures Steps(Pair(false, false, 0, Found(0, 1, 10), Idle), Load(0),
      Pair(false, false, 0, Loaded(0, 1, 10, UNLINKED), Idle))
    ensures Steps(Pair(false, false, 0, Loaded(0, 1, 10, UNLINKED), Idle), Build(0, 3, FIRST), FirstBuilt())
  {
  }

  lemma FirstPublishes()
    ensures Steps(FirstBuilt(), Cas(0), Pair(true, false, 0, Counting(56), Idle))
  {
    var s := Next(FirstBuilt(), Cas(0)).store;
    assert s.chains[0] == [3];
    assert s.chains == [[3], []] && s.place == map[3 := OnChain(0, 0)];
  }

  lemma SecondBinds()
    ensures Steps(Pair(true, false, 0, Counting(56), Idle), Lookup(1, 1, 1, 10),
      Pair(true, false, 0, Counting(56), Found(1, 1, 10)))
    ensures Steps(Pair(true, false, 0, Counting(56), Found(1, 1, 10)), Load(1),
      Pair(true, false, 0, Counting(56), Loaded(1, 1, 10, UNLINKED)))
  {
  }

  lemma SecondBuilds()
    ensures Steps(Pair(true, false, 0, Counting(56), Loaded(1, 1, 10, UNLINKED)), Build(1, 4, FIRST), SecondBuilt())
  {
  }

  lemma SecondPublishes()
    ensures Steps(SecondBuilt(), Cas(1), Pair(true, true, 0, Counting(56), Counting(56)))
  {
    var s := Next(SecondBuilt(), Cas(1)).store;
    assert s.chains[1] == [4];
    assert s.chains == [[3], [4]] && s.place == map[3 := OnChain(0, 0), 4 := OnChain(1, 0)];
  }

  lemma BothCount()
    ensures Steps(Pair(true, true, 0, Counting(56), Counting(56)), CountRead(0),
      Pair(true, true, 0, Adding(56, 0), Counting(56)))
    ensures Steps(Pair(true, true, 0, Adding(56, 0), Counting(56)), CountRead(1),
      Pair(true, true, 0, Adding(56, 0), Adding(56, 0)))
    ensures Steps(Pair(true, true, 0, Adding(56, 0), Adding(56, 0)), CountWrite(0),
      Pair(true, true, 56, Idle, Adding(56, 0)))
    ensures Steps(Pair(true, true, 56, Idle, Adding(56, 0)), CountWrite(1), Pair(true, true, 56, Idle, Idle))
  {
  }

  lemma Undercounts()
    ensures var s := Pair(true, true, 56, Idle, Idle); s.gauge == 56 && Total(s.store.memory, s.store.chains) == 112
  {
    var s := Pair(true, true, 56, Idle, Idle).store;
    assert ChainBytes(s.memory, [3]) == ChainBytes(s.memory, []) + 56;
    assert ChainBytes(s.memory, [4]) == ChainBytes(s.memory, []) + 56;
    assert s.chains[..1] == [[3]] && s.chains[..1][..0] == [];
    assert Total(s.memory, [[3]]) == Total(s.memory, []) + ChainBytes(s.memory, [3]);
  }

  ghost function Then(r: Run, act: Act, s: World): (after: Run)
    requires IsRun(r) && Steps(r.states[|r.acts|], act, s)
    ensures IsRun(after) && after.states[|after.acts|] == s
  {
    Run(r.states + [s], r.acts + [act])
  }

  /** Two handlers bind two cells, both read the gauge at 0 and both write 56: every handler is
      done, 112 bytes are on the chains and the gauge says 56. */
  lemma LostUpdate() returns (r: Run)
    ensures IsRun(r)
    ensures var s := r.states[|r.acts|];
      (forall t {:trigger s.threads[t]} :: 0 <= t < |s.threads| ==> s.threads[t].Idle?) && s.gauge == 56 &&
        Total(s.store.memory, s.store.chains) == 112
  {
    hide *;
    Cells();
    FirstBinds();
    FirstPublishes();
    SecondBinds();
    SecondBuilds();
    SecondPublishes();
    BothCount();
    Undercounts();
    r := Start();
    r := Then(r, NewCell(0), WithCells(1));
    r := Then(r, NewCell(0), Pair(false, false, 0, Idle, Idle));
    r := Then(r, Lookup(0, 0, 1, 10), Pair(false, false, 0, Found(0, 1, 10), Idle));
    r := Then(r, Load(0), Pair(false, false, 0, Loaded(0, 1, 10, UNLINKED), Idle));
    r := Then(r, Build(0, 3, FIRST), FirstBuilt());
    r := Then(r, Cas(0), Pair(true, false, 0, Counting(56), Idle));
    r := Then(r, Lookup(1, 1, 1, 10), Pair(true, false, 0, Counting(56), Found(1, 1, 10)));
    r := Then(r, Load(1), Pair(true, false, 0, Counting(56), Loaded(1, 1, 10, UNLINKED)));
    r := Then(r, Build(1, 4, FIRST), SecondBuilt());
    r := Then(r, Cas(1), Pair(true, true, 0, Counting(56), Counting(56)));
    r := Then(r, CountRead(0), Pair(true, true, 0, Adding(56, 0), Counting(56)));
    r := Then(r, CountRead(1), Pair(true, true, 0, Adding(56, 0), Adding(56, 0)));
    r := Then(r, CountWrite(0), Pair(true, true, 56, Idle, Adding(56, 0)));
    r := Then(r, CountWrite(1), Pair(true, true, 56, Idle, Idle));
    Done();
  }

  lemma Done()
    ensures var s := Pair(true, true, 56, Idle, Idle); forall t {:trigger s.threads[t]} ::
      0 <= t < |s.threads| ==> s.threads[t].Idle?
  {
  }

  ghost function Start(): (r: Run)
    ensures IsRun(r) && r.states[|r.acts|] == WithCells(0)
  {
    assert WithCells(0).store == Store(map[], [], [], 0, [], map[]);
    Run([WithCells(0)], [])
  }
}
