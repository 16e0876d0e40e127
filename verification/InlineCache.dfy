/** The per-site inline caches (vm/jit/InlineCache.c) as a protocol: send sites whose cells are
    repointed by compare-and-swap, miss handlers on any number of threads, the recompiler's
    retirement walk, and the stop-the-world sweep. A step is one atomic access to a cell
    together with the private work up to the next one. Addresses handed out by the allocator
    may be ones that were freed before. */
module InlineCache {

  import opened Options

  type Addr = nat

  const NULL: Addr := 0
  const UNLINKED: Addr := 1
  const MEGA: Addr := 2
  const PIC_CAPACITY: nat := 6

  datatype Way = Way(class_: nat, target: nat)

  datatype Kind = Unlinked | Mono | Pic | Mega

  datatype IcState = IcState(class_: nat, target: nat, kind: Kind, size: nat, prev: Addr, ways: seq<Way>)

  /** The state an address stands for: one of the two shared sentinels or an allocated state. */
  function At(memory: map<Addr, IcState>, a: Addr): IcState
    requires a == UNLINKED || a == MEGA || a in memory
  {
    if a == UNLINKED then IcState(0, 0, Unlinked, 0, NULL, [])
    else if a == MEGA then IcState(0, 0, Mega, 0, NULL, [])
    else memory[a]
  }

  /** The pairs a send can hit: the header of a mono state, the ways of a pic. */
  function Entries(st: IcState): seq<Way>
  {
    match st.kind
    case Mono => [Way(st.class_, st.target)]
    case Pic => st.ways
    case _ => []
  }

  ghost predicate Distinct(ways: seq<Way>)
  {
    forall i, j {:trigger ways[i], ways[j]} :: 0 <= i < j < |ways| ==> ways[i].class_ != ways[j].class_
  }

  /** The shape every published state has. */
  ghost predicate StateOk(st: IcState)
  {
    match st.kind
    case Mono => st.size == 1 && st.ways == [] && st.class_ != 0
    case Pic =>
      && 2 <= st.size <= PIC_CAPACITY && |st.ways| == st.size && Distinct(st.ways)
      && st.ways[0] == Way(st.class_, st.target) &&
        (forall w {:trigger st.ways[w]} :: 0 <= w < st.size ==> st.ways[w].class_ != 0)
    case _ => st.size == 0 && st.ways == [] && st.class_ == 0
  }

  function Bytes(st: IcState): nat
  {
    40 + st.size * 16
  }

  ghost predicate Covers(st: IcState, c: nat)
  {
    exists w {:trigger Entries(st)[w]} :: 0 <= w < |Entries(st)| && Entries(st)[w].class_ == c
  }

  ghost predicate Hits(st: IcState, entry: nat)
  {
    exists w {:trigger Entries(st)[w]} :: 0 <= w < |Entries(st)| && Entries(st)[w].target == entry
  }

  /** The state st moves to when it learns class c: a larger one, or mega past the capacity. */
  ghost predicate Learned(st: IcState, c: nat, target: nat, made: IcState)
  {
    && !Covers(st, c) && !st.kind.Mega?
    && (if |Entries(st)| < PIC_CAPACITY then Entries(made) == Entries(st) + [Way(c, target)] else made.kind.Mega?)
  }

  // ----- the handler's private work -----

  /** The middle of inlineCacheMiss: what, if anything, to publish over the state loaded. */
  method BuildState(seen: Addr, st: IcState, c: nat, target: nat) returns (made: Option<IcState>)
    requires StateOk(st) && c != 0 && (seen == UNLINKED ==> st.kind.Unlinked?)
    ensures made.None? <==> st.kind.Mega? || Covers(st, c)
    ensures made.Some? ==> StateOk(made.value) && Learned(st, c, target, made.value) && !made.value.kind.Unlinked?
    ensures made.Some? ==> made.value.prev == if seen == UNLINKED then NULL else seen
    ensures made.Some? && made.value.kind.Mega? ==> |Entries(st)| == PIC_CAPACITY
  {
    if st.kind.Unlinked? {
      return Some(IcState(c, target, Mono, 1, if seen == UNLINKED then NULL else seen, []));
    } else if st.kind.Mono? {
      assert Entries(st)[0].class_ == st.class_;
      if st.class_ == c { return None; }
      var ways := [Way(st.class_, st.target), Way(c, target)];
      return Some(IcState(ways[0].class_, ways[0].target, Pic, 2, seen, ways));
    } else if st.kind.Pic? {
      var covered := false;
      var i := 0;
      while i < st.size
        invariant 0 <= i <= st.size
        invariant covered <==> exists w :: 0 <= w < i && st.ways[w].class_ == c
      {
        covered := covered || st.ways[i].class_ == c;
        i := i + 1;
      }
      assert covered <==> Covers(st, c) by { assert Entries(st) == st.ways; }
      if covered { return None; }
      if st.size < PIC_CAPACITY {
        var ways: seq<Way> := [];
        i := 0;
        while i < st.size
          invariant 0 <= i <= st.size && ways == st.ways[..i]
        {
          ways := ways + [st.ways[i]];
          i := i + 1;
        }
        assert ways == st.ways;
        ways := ways + [Way(c, target)];
        return Some(IcState(ways[0].class_, ways[0].target, Pic, st.size + 1, seen, ways));
      }
      return Some(IcState(0, 0, Mega, 0, seen, []));
    }
    made := None;
  }

  /** The scan of icRetireCellsTargeting. */
  method TargetsEntry(st: IcState, entry: nat) returns (targets: bool)
    requires StateOk(st)
    ensures targets <==> Hits(st, entry)
  {
    if st.kind.Unlinked? || st.kind.Mega? { return false; }
    targets := false;
    var w := 0;
    while w < st.size
      invariant 0 <= w <= st.size
      invariant targets <==> exists v {:trigger Entries(st)[v]} :: 0 <= v < w && Entries(st)[v].target == entry
    {
      targets := targets || (if st.kind.Mono? then st.target == entry else st.ways[w].target == entry);
      assert Entries(st)[w].target == (if st.kind.Mono? then st.target else st.ways[w].target);
      w := w + 1;
    }
  }

  // ----- the world -----

  /** A miss handler between its lookup and its publish; elsewhere it holds no state pointer. */
  datatype Phase =
    | Idle
    | Found(cell: nat, class_: nat, target: nat)
    | Loaded(cell: nat, class_: nat, target: nat, seen: Addr)
    | Built(cell: nat, class_: nat, target: nat, seen: Addr, made: Addr)
    | Counting(bytes: nat)                // published, stateBytesLive not yet read
    | Adding(bytes: nat, read: int)       // read, not yet written back

  /** The retirement walk of the thread that holds the code-generation lock. */
  datatype Walk =
    | NoWalk
    | Walking(entry: nat, i: nat)
    | Looked(entry: nat, i: nat, seen: Addr)
    | Ready(entry: nat, i: nat, seen: Addr, made: Addr)
    | WalkCounting(entry: nat, i: nat, bytes: nat)
    | WalkAdding(entry: nat, i: nat, bytes: nat, read: int)

  /** Where an allocated state belongs: at a position of one cell's chain, or to the handler
      or walk that is about to publish it. */
  datatype Place = OnChain(cell: nat, k: nat) | OfThread(t: nat) | OfWalk

  /** The allocated states and the cells. History: bytes, the size of what is published and not
      freed; chains, the states each cell ever pointed to since the last sweep, oldest first;
      and place. */
  datatype Store = Store(
    memory: map<Addr, IcState>, cells: seq<Addr>, selectors: seq<nat>, bytes: int, chains: seq<seq<Addr>>,
      place: map<Addr, Place>)

  /** gauge is stateBytesLive, a plain counter: an update of it is a read and a later write.
      lookup is uncached method lookup: class and selector to native entry. */
  datatype World = World(store: Store, gauge: int, threads: seq<Phase>, walk: Walk, lookup: (nat, nat) -> nat)

  datatype Act =
    | Lookup(t: nat, cell: nat, class_: nat, target: nat)   // the lookup of a miss returns
    | Load(t: nat)
    | Build(t: nat, a: Addr, made: IcState)
    | Covered(t: nat)                                       // nothing to publish
    | Cas(t: nat)
    | CountRead(t: nat)
    | CountWrite(t: nat)
    | Republish(entry: nat, after: (nat, nat) -> nat)       // a recompiled method goes live
    | WalkLoad
    | WalkBuild(a: Addr)
    | WalkSkip
    | WalkCas
    | WalkCountRead
    | WalkCountWrite
    | WalkEnd
    | Sweep(after: (nat, nat) -> nat)                       // collection, or a method-dictionary change
    | NewCell(selector: nat)

  ghost predicate Known(s: Store, a: Addr)
  {
    a == UNLINKED || a == MEGA || a in s.memory
  }

  ghost predicate AllKnown(s: Store)
  {
    forall i {:trigger s.cells[i]} :: 0 <= i < |s.cells| ==> Known(s, s.cells[i])
  }

  ghost predicate CanMalloc(s: Store, a: Addr)
  {
    a > MEGA && a !in s.memory
  }

  ghost predicate MayLearn(seen: Addr, st: IcState, c: nat, target: nat, made: IcState)
  {
    StateOk(made) && Learned(st, c, target, made) && !made.kind.Unlinked? && made.prev == if seen == UNLINKED then NULL
      else seen
  }

  ghost predicate Retired(seen: Addr, made: IcState)
  {
    made == IcState(0, 0, Unlinked, 0, seen, [])
  }

  ghost predicate Enabled(s: World, act: Act)
  {
    match act
    case Lookup(t, cell, c, _) => t < |s.threads| && s.threads[t].Idle? && cell < |s.store.cells| && c != 0
    case Load(t) => t < |s.threads| && s.threads[t].Found? && s.threads[t].cell < |s.store.cells|
    case Build(t, a, made) =>
      && t < |s.threads| && s.threads[t].Loaded? && CanMalloc(s.store, a) && Known(s.store, s.threads[t].seen)
      && MayLearn(s.threads[t].seen, At(s.store.memory, s.threads[t].seen), s.threads[t].class_, s.threads[t].target,
        made)
    case Covered(t) =>
      && t < |s.threads| && s.threads[t].Loaded? && Known(s.store, s.threads[t].seen)
      && (At(s.store.memory, s.threads[t].seen).kind.Mega? ||
        Covers(At(s.store.memory, s.threads[t].seen), s.threads[t].class_))
    case Cas(t) => t < |s.threads| && s.threads[t].Built? && s.threads[t].cell < |s.store.cells| &&
      s.threads[t].cell < |s.store.chains| && s.threads[t].made in s.store.memory
    case CountRead(t) => t < |s.threads| && s.threads[t].Counting?
    case CountWrite(t) => t < |s.threads| && s.threads[t].Adding?
    case Republish(entry, after) => s.walk.NoWalk? && forall c, n {:trigger after(c, n)} ::
      after(c, n) != entry && (s.lookup(c, n) != entry ==> after(c, n) == s.lookup(c, n))
    case WalkLoad => s.walk.Walking? && s.walk.i < |s.store.cells|
    case WalkBuild(a) => s.walk.Looked? && CanMalloc(s.store, a) && Known(s.store, s.walk.seen) &&
      Hits(At(s.store.memory, s.walk.seen), s.walk.entry)
    case WalkSkip => s.walk.Looked? && Known(s.store, s.walk.seen) &&
      !Hits(At(s.store.memory, s.walk.seen), s.walk.entry)
    case WalkCas => s.walk.Ready? && s.walk.i < |s.store.cells| && s.walk.i < |s.store.chains| &&
      s.walk.made in s.store.memory
    case WalkCountRead => s.walk.WalkCounting?
    case WalkCountWrite => s.walk.WalkAdding?
    case WalkEnd => s.walk.Walking? && s.walk.i >= |s.store.cells|
    case Sweep(_) => s.walk.NoWalk? &&
      (forall t {:trigger s.threads[t]} :: 0 <= t < |s.threads| ==> s.threads[t].Idle?) && AllKnown(s.store)
    case NewCell(_) => s.walk.NoWalk?
  }

  /** The winner of the compare-and-swap: the cell points to made. */
  ghost function Publish(s: Store, cell: nat, made: Addr): Store
    requires cell < |s.cells| && cell < |s.chains| && made in s.memory
  {
    s.(cells := s.cells[cell := made], bytes := s.bytes + Bytes(s.memory[made]),
       chains := s.chains[cell := s.chains[cell] + [made]], place := s.place[made := OnChain(cell, |s.chains[cell]|)])
  }

  /** The loser frees its state. */
  ghost function Discard(s: Store, made: Addr): Store
  {
    s.(memory := s.memory - {made}, place := s.place - {made})
  }

  ghost function CompareAndSwap(s: Store, cell: nat, expected: Addr, made: Addr): Store
    requires cell < |s.cells| && cell < |s.chains| && made in s.memory
  {
    if s.cells[cell] == expected then Publish(s, cell, made) else Discard(s, made)
  }

  ghost function Malloc(s: Store, a: Addr, st: IcState, p: Place): Store
  {
    s.(memory := s.memory[a := st], place := s.place[a := p])
  }

  function SweptCell(memory: map<Addr, IcState>, a: Addr): Addr
    requires a == UNLINKED || a == MEGA || a in memory
  {
    if At(memory, a).kind.Mega? then MEGA else UNLINKED
  }

  ghost function SweptCells(s: Store): (r: seq<Addr>)
    requires AllKnown(s)
    ensures |r| == |s.cells| && forall i {:trigger r[i]} ::
      0 <= i < |r| ==> Known(s, s.cells[i]) && r[i] == SweptCell(s.memory, s.cells[i])
  {
    seq(|s.cells|, i requires 0 <= i < |s.cells| && Known(s, s.cells[i]) => SweptCell(s.memory, s.cells[i]))
  }

  ghost function OnChains(chains: seq<seq<Addr>>): (r: set<Addr>)
  {
    set i, k | 0 <= i < |chains| && 0 <= k < |chains[i]| :: chains[i][k]
  }

  ghost function ChainBytes(memory: map<Addr, IcState>, chain: seq<Addr>): nat
  {
    if chain == [] then 0 else
      ChainBytes(memory, chain[..|chain| - 1]) +
      (if chain[|chain| - 1] in memory then Bytes(memory[chain[|chain| - 1]]) else 0)
  }

  ghost function Total(memory: map<Addr, IcState>, chains: seq<seq<Addr>>): nat
  {
    if chains == [] then 0 else Total(memory, chains[..|chains| - 1]) + ChainBytes(memory, chains[|chains| - 1])
  }

  /** Every chain is freed; mega cells are left on the mega sentinel, others unlinked. */
  ghost function Swept(s: Store): Store
    requires AllKnown(s)
  {
    var gone := OnChains(s.chains);
    Store(s.memory - gone, SweptCells(s), s.selectors, s.bytes - Total(s.memory, s.chains), seq(|s.chains|, i => []),
      s.place - gone)
  }

  ghost function WithCell(s: Store, selector: nat): Store
  {
    s.(cells := s.cells + [UNLINKED], selectors := s.selectors + [selector], chains := s.chains + [[]])
  }

  ghost function Next(s: World, act: Act): World
    requires Enabled(s, act)
  {
    match act
    case Lookup(t, cell, c, target) => s.(threads := s.threads[t := Found(cell, c, target)])
    case Load(t) =>
      var p := s.threads[t];
      s.(threads := s.threads[t := Loaded(p.cell, p.class_, p.target, s.store.cells[p.cell])])
    case Build(t, a, made) =>
      var p := s.threads[t];
      s.(store := Malloc(s.store, a, made, OfThread(t)), threads :=
        s.threads[t := Built(p.cell, p.class_, p.target, p.seen, a)])
    case Covered(t) => s.(threads := s.threads[t := Idle])
    case Cas(t) =>
      var p := s.threads[t];
      s.(store := CompareAndSwap(s.store, p.cell, p.seen, p.made),
         threads := s.threads[t := if s.store.cells[p.cell] == p.seen then Counting(Bytes(s.store.memory[p.made]))
           else Idle])
    case CountRead(t) => s.(threads := s.threads[t := Adding(s.threads[t].bytes, s.gauge)])
    case CountWrite(t) => s.(gauge := s.threads[t].read + s.threads[t].bytes, threads := s.threads[t := Idle])
    case Republish(entry, after) => s.(lookup := after, walk := Walking(entry, 0))
    case WalkLoad => s.(walk := Looked(s.walk.entry, s.walk.i, s.store.cells[s.walk.i]))
    case WalkBuild(a) => s.(store := Malloc(s.store, a, IcState(0, 0, Unlinked, 0, s.walk.seen, []), OfWalk), walk :=
      Ready(s.walk.entry, s.walk.i, s.walk.seen, a))
    case WalkSkip => s.(walk := Walking(s.walk.entry, s.walk.i + 1))
    case WalkCas =>
      var w := s.walk;
      s.(store := CompareAndSwap(s.store, w.i, w.seen, w.made),
         walk := if s.store.cells[w.i] == w.seen then WalkCounting(w.entry, w.i + 1, Bytes(s.store.memory[w.made]))
           else Walking(w.entry, w.i + 1))
    case WalkCountRead => s.(walk := WalkAdding(s.walk.entry, s.walk.i, s.walk.bytes, s.gauge))
    case WalkCountWrite => s.(gauge := s.walk.read + s.walk.bytes, walk := Walking(s.walk.entry, s.walk.i))
    case WalkEnd => s.(walk := NoWalk)
    case Sweep(after) => s.(store := Swept(s.store), gauge := s.gauge - Total(s.store.memory, s.store.chains), lookup :=
      after)
    case NewCell(selector) => s.(store := WithCell(s.store, selector))
  }

  /** No cells, no states, any threads. */
  ghost predicate Init(s: World)
  {
    && s.store == Store(map[], [], [], 0, [], map[]) && s.gauge == 0 && s.walk.NoWalk?
    && forall t {:trigger s.threads[t]} :: 0 <= t < |s.threads| ==> s.threads[t].Idle?
  }

  datatype Run = Run(states: seq<World>, acts: seq<Act>)

  ghost predicate IsRun(r: Run)
  {
    && |r.states| == |r.acts| + 1 && Init(r.states[0])
    && forall i {:trigger r.acts[i]} ::
      0 <= i < |r.acts| ==> Enabled(r.states[i], r.acts[i]) && r.states[i + 1] == Next(r.states[i], r.acts[i])
  }
}
