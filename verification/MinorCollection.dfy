/** A scavenge together with the remembered sets it starts from and leaves behind: every
    mutator's own set and the heap's are detached and walked, the heap's is built anew
    (iterateRememberedSet in vm/memory/Scavenger.c). What a scavenge needs of the sets is what the
    last one left, so scavenges can follow one another. */
module MinorCollection {
  import opened ScavengeModel
  import opened Scavenger
  import RememberedSet

  type Chain = RememberedSet.Chain

  ghost predicate SomeHolds(chains: seq<Chain>, n: nat)
  {
    exists k {:trigger chains[k]} :: 0 <= k < |chains| && n in RememberedSet.Entries(chains[k])
  }

  /** The write barrier's half: the sets hold old objects only, and every old object that points
      into the young semispace. */
  ghost predicate Guarded(tenured: map<nat, Obj>, chains: seq<Chain>)
  {
    && (forall n {:trigger SomeHolds(chains, n)} :: SomeHolds(chains, n) ==> n in tenured)
    && (forall n {:trigger tenured[n]} :: n in tenured && !NoSource(tenured[n]) ==> SomeHolds(chains, n))
  }

  /** The other half: an old object has its tag exactly if one of the sets holds it. */
  ghost predicate Tagged(tagged: set<nat>, chains: seq<Chain>)
  {
    forall n {:trigger n in tagged} {:trigger SomeHolds(chains, n)} :: n in tagged <==> SomeHolds(chains, n)
  }

  ghost function ChainsOf(sets: seq<RememberedSet.Set>): (r: seq<Chain>)
    reads sets
    ensures |r| == |sets| && forall k {:trigger r[k]} :: 0 <= k < |sets| ==> r[k] == sets[k].blocks
  {
    seq(|sets|, k requires 0 <= k < |sets| reads sets => sets[k].blocks)
  }

  ghost predicate Apart(sets: seq<RememberedSet.Set>)
  {
    sets != [] && forall j, k {:trigger sets[j], sets[k]} :: 0 <= j < k < |sets| ==> sets[j] != sets[k]
  }

  ghost predicate AllSets(sets: seq<RememberedSet.Set>)
    reads sets
  {
    Apart(sets) && forall k {:trigger sets[k]} :: 0 <= k < |sets| ==> sets[k].Valid()
  }

  ghost predicate AllChains(chains: seq<Chain>)
  {
    forall k {:trigger chains[k]} :: 0 <= k < |chains| ==> chains[k] != [] && RememberedSet.ChainOk(chains[k])
  }

  /** Every source set gets a fresh chain before any is walked. */
  method DetachAll(sets: seq<RememberedSet.Set>) returns (detached: seq<Chain>)
    requires AllSets(sets)
    modifies sets
    ensures AllSets(sets) && detached == old(ChainsOf(sets)) && AllChains(detached)
    ensures forall k {:trigger sets[k]} :: 0 <= k < |sets| ==> sets[k].blocks == [[]]
  {
    ghost var was := ChainsOf(sets);
    detached := [];
    for k := 0 to |sets|
      invariant detached == was[..k]
      invariant forall j {:trigger sets[j]} :: 0 <= j < |sets| ==> sets[j].blocks == if j < k then [[]] else was[j]
    {
      hide AllSets, AllChains, RememberedSet.ChainOk;
      detached := detached + [sets[k].blocks];
      sets[k].blocks := [[]];
    }
    assert was[..|sets|] == was;
  }

  /** The walk over the detached chains, one after the other. */
  method WalkDetached(detached: seq<Chain>) returns (recorded: seq<nat>)
    requires AllChains(detached)
    ensures forall n {:trigger n in recorded} {:trigger SomeHolds(detached, n)} ::
      n in recorded <==> SomeHolds(detached, n)
  {
    recorded := [];
    for k := 0 to |detached|
      invariant forall n {:trigger n in recorded} {:trigger SomeHolds(detached[..k], n)} ::
        n in recorded <==> SomeHolds(detached[..k], n)
    {
      var set_ := new RememberedSet.Set();
      set_.blocks := detached[k];
      var seen := RememberedSet.VisitAll(set_);
      MoreHeld(detached, k, recorded, seen);
      recorded := recorded + seen;
    }
    assert detached[..|detached|] == detached;
  }

  lemma MoreHeld(detached: seq<Chain>, k: nat, recorded: seq<nat>, seen: seq<nat>)
    requires k < |detached| && seen == RememberedSet.Entries(detached[k])
    requires forall n {:trigger n in recorded} {:trigger SomeHolds(detached[..k], n)} ::
      n in recorded <==> SomeHolds(detached[..k], n)
    ensures forall n {:trigger SomeHolds(detached[..k + 1], n)} ::
      n in recorded + seen <==> SomeHolds(detached[..k + 1], n)
  {
    hide RememberedSet.Entries;
    var less, more := detached[..k], detached[..k + 1];
    forall n ensures n in recorded + seen <==> SomeHolds(more, n) {
      assert n in recorded <==> SomeHolds(less, n);
      if SomeHolds(less, n) {
        var j :| 0 <= j < k && n in RememberedSet.Entries(less[j]);
        assert more[j] == less[j];
      }
      if SomeHolds(more, n) {
        var j :| 0 <= j <= k && n in RememberedSet.Entries(more[j]);
        if j < k { assert less[j] == more[j]; }
      }
      assert n in seen ==> n in RememberedSet.Entries(more[k]);
    }
  }

  /** The roots re-added to the heap's set. */
  method AddAll(heap: RememberedSet.Set, remembered: seq<nat>)
    requires heap.Valid() && heap.blocks == [[]]
    modifies heap
    ensures heap.Valid() && forall n {:trigger n in remembered} ::
      n in RememberedSet.Entries(heap.blocks) <==> n in remembered
  {
    assert RememberedSet.Entries([[]]) == [];
    for k := 0 to |remembered|
      invariant heap.Valid() && multiset(RememberedSet.Entries(heap.blocks)) == multiset(remembered[..k])
    {
      hide RememberedSet.Entries;
      assert remembered[..k + 1] == remembered[..k] + [remembered[k]];
      heap.Add(remembered[k]);
    }
    assert remembered[..|remembered|] == remembered;
    SameMembers(RememberedSet.Entries(heap.blocks), remembered);
  }

  lemma SameMembers(a: seq<nat>, b: seq<nat>)
    requires multiset(a) == multiset(b)
    ensures forall n {:trigger n in b} :: n in a <==> n in b
  {
    forall n ensures n in a <==> n in b { assert n in a <==> n in multiset(a); assert n in b <==> n in multiset(b); }
  }

  // ----- the next scavenge -----

  /** The destination is the next scavenge's source. */
  function Flipped(v: Value): Value
  {
    if IsNew(v) then Ptr(Src(v.r.a)) else v
  }

  function FlippedObj(o: Obj): (r: Obj)
    ensures r == o.(slots := r.slots) && |r.slots| == |o.slots|
    ensures forall i {:trigger r.slots[i]} :: 0 <= i < |o.slots| ==> r.slots[i] == Flipped(o.slots[i])
  {
    o.(slots := seq(|o.slots|, i requires 0 <= i < |o.slots| => Flipped(o.slots[i])))
  }

  ghost function NextBefore(s: State, capacity: nat): Before
  {
    Before(map n | n in s.tenured :: FlippedObj(s.tenured[n]), map a | a in s.dst ::
      FlippedObj(s.dst[a]), s.top, capacity)
  }

  ghost predicate Finished(b: Before, s: State)
  {
    Valid(b, s) && s.top <= b.capacity && forall r {:trigger InHeap(s, r)} :: InHeap(s, r) ==> Done(s, r)
  }

  lemma SlotLeads(b: Before, s: State, r: Ref, i: nat)
    requires Finished(b, s) && InHeap(s, r) && i < |Get(s, r).slots|
    ensures ValueOk(NextBefore(s, b.capacity), Flipped(Get(s, r).slots[i]))
  {
    var v := Get(s, r).slots[i];
    assert Done(s, r) && !IsSrc(v);
    assert HasOrigin(b, s, r) && CopyOk(s, Was(b, s, r), Get(s, r));
    var was := Was(b, s, r);
    assert ObjOk(b, was);
    var old_ := was.slots[i];
    assert ValueOk(b, old_) && SlotOk(s, old_, v);
    assert HasImage(s, old_) && v == Image(s, old_);
    ImageLeads(b, s, old_);
  }

  lemma ObjNext(b: Before, s: State, r: Ref)
    requires Finished(b, s) && InHeap(s, r)
    ensures ObjOk(NextBefore(s, b.capacity), FlippedObj(Get(s, r)))
  {
    hide Finished, NextBefore, ValueOk, Get, InHeap;
    forall i | 0 <= i < |Get(s, r).slots| ensures ValueOk(NextBefore(s, b.capacity), FlippedObj(Get(s, r)).slots[i]) {
      SlotLeads(b, s, r, i);
    }
    SizeKept(b, s, r);
  }

  lemma SizeKept(b: Before, s: State, r: Ref)
    requires Finished(b, s) && InHeap(s, r)
    ensures Get(s, r).size >= 1
  {
    assert HasOrigin(b, s, r) && CopyOk(s, Was(b, s, r), Get(s, r));
    assert ObjOk(b, Was(b, s, r));
  }

  /** The heap a scavenge leaves is one that a scavenge can start from. */
  lemma NextBegins(b: Before, s: State)
    requires Finished(b, s)
    ensures BeforeOk(NextBefore(s, b.capacity))
  {
    var next := NextBefore(s, b.capacity);
    assert DstOk(s);
    forall n | n in next.tenured ensures ObjOk(next, next.tenured[n]) { ObjNext(b, s, Old(n)); }
    forall a | a in next.src ensures ObjOk(next, next.src[a]) && a + next.src[a].size <= next.capacity {
      ObjNext(b, s, Dst(a));
      var _ := s.dst[a];
    }
    forall a, c | a in next.src && c in next.src && a < c
      ensures a + next.src[a].size <= c { var _, _ := s.dst[a], s.dst[c]; }
  }

  lemma NextRoots(b: Before, s: State, roots: seq<Value>, roots': seq<Value>)
    requires Finished(b, s) && RootsDone(s, roots, roots') && forall i {:trigger roots[i]} ::
      0 <= i < |roots| ==> ValueOk(b, roots[i])
    ensures forall i {:trigger roots'[i]} ::
      0 <= i < |roots'| ==> ValueOk(NextBefore(s, b.capacity), Flipped(roots'[i]))
  {
    forall i | 0 <= i < |roots'| ensures ValueOk(NextBefore(s, b.capacity), Flipped(roots'[i])) {
      var _ := roots'[i];
      assert ValueOk(b, roots[i]) && HasImage(s, roots[i]) && roots'[i] == Image(s, roots[i]);
      ImageLeads(b, s, roots[i]);
    }
  }

  lemma ImageLeads(b: Before, s: State, v: Value)
    requires Finished(b, s) && ValueOk(b, v) && HasImage(s, v)
    ensures ValueOk(NextBefore(s, b.capacity), Flipped(Image(s, v)))
  {
    hide Copies, BeforeOk, Used;
    if IsSrc(v) {
      var q := s.forward[v.r.a];
      assert q in s.origin;
      var _ := s.origin[q];
      if q.Old? { assert q.n in s.tenured; } else { assert q.a in s.dst; }
    } else if v.Ptr? {
      assert v.r.n in s.tenured;
    }
  }

  /** A later heap: the survivors of the last scavenge, and what was allocated behind them since. */
  ghost predicate Follows(b: Before, s: State, next: Before)
  {
    && next.survivorEnd == NextBefore(s, b.capacity).survivorEnd
    && forall a {:trigger a in next.src} :: a in next.src ==> a in s.dst || s.top <= a
  }

  /** Of what lives through the next scavenge exactly the objects that lived through the last are old
      after it: two in a row make an object old, and no fewer do. */
  lemma TwiceMakesOld(b: Before, s: State, next: Before, t: State, a: nat)
    requires Finished(b, s) && Follows(b, s, next) && Valid(next, t) && a in t.forward
    ensures t.forward[a].Old? <==> a in s.dst
  {
    assert DstOk(s) && Forwards(next, t);
    assert t.origin[t.forward[a]] == a && a in next.src;
    if a in s.dst { var _ := s.dst[a]; }
  }

  lemma FlippedSource(b: Before, s: State, n: nat)
    requires Finished(b, s) && n in s.tenured
    ensures NoSource(FlippedObj(s.tenured[n])) <==> !HasNew(s, Old(n))
  {
    assert InHeap(s, Old(n)) && Done(s, Old(n));
    var o := s.tenured[n];
    var p := FlippedObj(o);
    assert Get(s, Old(n)) == o;
    hide Finished;
    if NoSource(p) {
      forall i | 0 <= i < |o.slots| ensures !IsNew(o.slots[i]) { var _ := p.slots[i]; }
    } else {
      var i :| 0 <= i < |p.slots| && IsSrc(p.slots[i]);
      assert !IsSrc(o.slots[i]) && IsNew(o.slots[i]);
    }
  }

  /** With the sets as the scavenge leaves them, the next one finds every edge recorded. */
  lemma NextGuarded(b: Before, s: State, chains: seq<Chain>)
    requires Finished(b, s)
    requires forall n {:trigger SomeHolds(chains, n)} :: SomeHolds(chains, n) <==> n in s.tenured && HasNew(s, Old(n))
    ensures Guarded(NextBefore(s, b.capacity).tenured, chains)
  {
    var next := NextBefore(s, b.capacity).tenured;
    hide SomeHolds, Finished;
    forall n | n in next && !NoSource(next[n]) ensures SomeHolds(chains, n) {
      FlippedSource(b, s, n);
      assert SomeHolds(chains, n) <==> n in s.tenured && HasNew(s, Old(n));
    }
  }

  lemma OnlyLast(chains: seq<Chain>, n: nat)
    requires chains != [] && forall k {:trigger chains[k]} :: 0 <= k < |chains| - 1 ==> chains[k] == [[]]
    ensures SomeHolds(chains, n) <==> n in RememberedSet.Entries(chains[|chains| - 1])
  {
    assert RememberedSet.Entries([[]]) == [];
    hide RememberedSet.Entries;
    var last := chains[|chains| - 1];
  }

  // ----- between two scavenges -----

  /** v as the slot i of r. */
  ghost function Stored(b: Before, r: Ref, i: nat, v: Value): Before
    requires HoldsSlot(b, r, i)
  {
    match r
    case Old(n) => b.(tenured := b.tenured[n := b.tenured[n].(slots := b.tenured[n].slots[i := v])])
    case Src(a) => b.(src := b.src[a := b.src[a].(slots := b.src[a].slots[i := v])])
  }

  ghost predicate HoldsSlot(b: Before, r: Ref, i: nat)
  {
    match r
    case Old(n) => n in b.tenured && i < |b.tenured[n].slots|
    case Src(a) => a in b.src && i < |b.src[a].slots|
    case Dst(_) => false
  }

  /** rawObjectStorePtr, by the mutator with set k: an old object that gets a young pointer is
      recorded, and tagged, unless it has its tag. With that the sets stay as a scavenge needs them. */
  method StorePtr(ghost b: Before, tagged: set<nat>, sets: seq<RememberedSet.Set>, k: nat, r: Ref, ghost i: nat,
      v: Value) returns (tagged': set<nat>)
    requires BeforeOk(b) && HoldsSlot(b, r, i) && ValueOk(b, v) && AllSets(sets) && k < |sets|
    requires Guarded(b.tenured, ChainsOf(sets)) && Tagged(tagged, ChainsOf(sets))
    modifies sets[k]
    ensures AllSets(sets) && BeforeOk(Stored(b, r, i, v))
    ensures Guarded(Stored(b, r, i, v).tenured, ChainsOf(sets)) && Tagged(tagged', ChainsOf(sets))
    ensures forall n {:trigger SomeHolds(ChainsOf(sets), n)} ::
      SomeHolds(ChainsOf(sets), n) <==> old(SomeHolds(ChainsOf(sets), n)) || (r == Old(n) && IsSrc(v))
  {
    hide BeforeOk, NoSource, RememberedSet.Entries;
    ghost var chains := ChainsOf(sets);
    StoredOk(b, r, i, v);
    tagged' := tagged;
    if r.Old? && IsSrc(v) && r.n !in tagged {
      sets[k].Add(r.n);
      tagged' := tagged + {r.n};
      ChainLonger(chains, ChainsOf(sets), k, r.n);
    }
    hide SomeHolds;
    StoredGuarded(b, r, i, v, chains, ChainsOf(sets));
  }

  lemma ChainLonger(chains: seq<Chain>, chains': seq<Chain>, k: nat, n: nat)
    requires k < |chains| == |chains'| && forall j {:trigger chains'[j]} ::
      0 <= j < |chains| && j != k ==> chains'[j] == chains[j]
    requires multiset(RememberedSet.Entries(chains'[k])) == multiset(RememberedSet.Entries(chains[k])) + multiset{n}
    ensures forall m {:trigger SomeHolds(chains', m)} :: SomeHolds(chains', m) <==> SomeHolds(chains, m) || m == n
  {
    hide RememberedSet.Entries;
    var a, c := RememberedSet.Entries(chains[k]), RememberedSet.Entries(chains'[k]);
    forall m ensures SomeHolds(chains', m) <==> SomeHolds(chains, m) || m == n {
      assert m in c <==> m in multiset(c);
      assert m in a <==> m in multiset(a);
      if SomeHolds(chains, m) {
        var j :| 0 <= j < |chains| && m in RememberedSet.Entries(chains[j]);
        assert m in RememberedSet.Entries(chains'[j]);
      }
      if SomeHolds(chains', m) {
        var j :| 0 <= j < |chains'| && m in RememberedSet.Entries(chains'[j]);
        if j != k { assert chains'[j] == chains[j]; }
      }
      if m == n { assert m in RememberedSet.Entries(chains'[k]); }
    }
  }

  lemma StoredOk(b: Before, r: Ref, i: nat, v: Value)
    requires BeforeOk(b) && HoldsSlot(b, r, i) && ValueOk(b, v)
    ensures BeforeOk(Stored(b, r, i, v))
  {
    var c := Stored(b, r, i, v);
    assert c.tenured.Keys == b.tenured.Keys && c.src.Keys == b.src.Keys;
    forall w: Value | ValueOk(b, w) ensures ValueOk(c, w) {}
    forall n | n in c.tenured ensures ObjOk(c, c.tenured[n]) { assert ObjOk(b, b.tenured[n]); }
    forall a | a in c.src ensures ObjOk(c, c.src[a]) && a + c.src[a].size <= c.capacity { assert ObjOk(b, b.src[a]); }
    forall a, d | a in c.src && d in c.src && a < d ensures a + c.src[a].size <= d { var _, _ := b.src[a], b.src[d]; }
  }

  lemma StoredGuarded(b: Before, r: Ref, i: nat, v: Value, chains: seq<Chain>, chains': seq<Chain>)
    requires HoldsSlot(b, r, i) && Guarded(b.tenured, chains)
    requires forall m {:trigger SomeHolds(chains', m)} ::
      SomeHolds(chains', m) <==> SomeHolds(chains, m) || (r == Old(m) && IsSrc(v))
    ensures Guarded(Stored(b, r, i, v).tenured, chains')
  {
    hide SomeHolds;
    var c := Stored(b, r, i, v).tenured;
    forall n | n in c && !NoSource(c[n]) ensures SomeHolds(chains', n) {
      if r == Old(n) && !IsSrc(v) {
        var j :| 0 <= j < |c[n].slots| && IsSrc(c[n].slots[j]);
        assert b.tenured[n].slots[j] == c[n].slots[j];
      }
      assert !(r == Old(n) && IsSrc(v)) ==> !NoSource(b.tenured[n]);
    }
  }

  // ----- the whole -----

  /** The collection of young space, with the heap's own set last. Nothing but what the write
      barrier recorded is needed of the sets, and the next collection finds it again. */
  method CollectYoung(tenured: map<nat, Obj>, nextOld: nat, src: map<nat, Obj>, survivorEnd: nat, capacity: nat,
                      tagged: set<nat>, sets: seq<RememberedSet.Set>, roots: seq<Value>)
    returns (c: Collector, roots': seq<Value>)
    requires BeforeOk(Before(tenured, src, survivorEnd, capacity))
    requires forall n {:trigger n in tenured} :: n in tenured ==> n < nextOld
    requires forall i {:trigger roots[i]} ::
      0 <= i < |roots| ==> ValueOk(Before(tenured, src, survivorEnd, capacity), roots[i])
    requires AllSets(sets) && Guarded(tenured, ChainsOf(sets)) && Tagged(tagged, ChainsOf(sets))
    modifies sets
    ensures AllSets(sets) && fresh(c) && c.before == Before(tenured, src, survivorEnd, capacity)
    ensures c.Ok() && Finished(c.before, c.Now()) && RootsDone(c.Now(), roots, roots') &&
      Closed(c.before, c.starts, c.forward.Keys)
    ensures BeforeOk(NextBefore(c.Now(), capacity)) && Guarded(NextBefore(c.Now(), capacity).tenured, ChainsOf(sets))
    ensures Tagged(c.tagged, ChainsOf(sets))
    ensures forall i {:trigger roots'[i]} ::
      0 <= i < |roots'| ==> ValueOk(NextBefore(c.Now(), capacity), Flipped(roots'[i]))
  {
    hide BeforeOk, NoSource, RememberedSet.Entries, Finished, RootsDone, Closed, Valid, OnlyReached, StartsFrom;
    ghost var chains := ChainsOf(sets);
    var detached := DetachAll(sets);
    var recorded := WalkDetached(detached);
    Known(tenured, tagged, chains, recorded);
    c := new Collector(tenured, nextOld, src, survivorEnd, capacity, tagged, recorded, roots);
    roots' := c.Scavenge(recorded, roots);
    ghost var s := c.Now();
    IsFinished(c);
    var heap := sets[|sets| - 1];
    AddAll(heap, c.remembered);
    assert c.Now() == s;
    NextBegins(c.before, s);
    NextRoots(c.before, s, roots, roots');
    ghost var after := ChainsOf(sets);
    forall n ensures (SomeHolds(after, n) <==> n in s.tenured && HasNew(s, Old(n))) &&
      (n in c.tagged <==> SomeHolds(after, n)) {
      OnlyLast(after, n);
      assert n in c.remembered <==> InHeap(s, Old(n)) && HasNew(s, Old(n));
    }
    NextGuarded(c.before, s, after);
  }

  lemma IsFinished(c: Collector)
    requires c.Ok() && c.top <= c.capacity && forall r {:trigger InHeap(c.Now(), r)} ::
      InHeap(c.Now(), r) ==> Done(c.Now(), r)
    ensures Finished(c.before, c.Now())
  {
    hide Valid, OnlyReached;
  }

  lemma Known(tenured: map<nat, Obj>, tagged: set<nat>, chains: seq<Chain>, recorded: seq<nat>)
    requires Guarded(tenured, chains) && Tagged(tagged, chains)
    requires forall n {:trigger n in recorded} {:trigger SomeHolds(chains, n)} ::
      n in recorded <==> SomeHolds(chains, n)
    ensures forall n {:trigger n in recorded} :: n in recorded ==> n in tenured
    ensures forall n {:trigger n in tenured} :: n in tenured && n !in recorded ==> NoSource(tenured[n])
    ensures forall n {:trigger n in tagged} :: n in tagged <==> n in recorded
  {
    hide SomeHolds, NoSource;
    forall n | n in tenured && n !in recorded ensures NoSource(tenured[n]) { var _ := tenured[n]; }
  }
}
