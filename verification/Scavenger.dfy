/** The copying collector (vm/memory/Scavenger.c): every object reachable from the roots and
    the remembered old objects is evacuated once, copied or promoted, and every pointer to it
    is replaced. */
module Scavenger {
  import opened ScavengeModel

  ghost predicate HasNew(s: State, r: Ref)
    requires InHeap(s, r)
  {
    exists i {:trigger Get(s, r).slots[i]} :: 0 <= i < |Get(s, r).slots| && IsNew(Get(s, r).slots[i])
  }

  /** What was added to the remembered set between s and t: the objects promoted meanwhile, and
      root, that point to the destination semispace. All of them, unless root was tagged. */
  ghost predicate Remembers(s: State, t: State, rem: seq<nat>, rem': seq<nat>, tagged: set<nat>, tagged': set<nat>,
      root: Ref)
  {
    && |rem| <= |rem'| && rem'[..|rem|] == rem
    && (forall k {:trigger rem'[k]} :: |rem| <= k < |rem'| ==>
          InHeap(t, Old(rem'[k])) && HasNew(t, Old(rem'[k])) && (!InHeap(s, Old(rem'[k])) || Old(rem'[k]) == root))
    && (forall n {:trigger n in tagged'} :: n in tagged' <==> n in tagged || n in rem'[|rem|..])
    && (forall n {:trigger InHeap(t, Old(n))} ::
      InHeap(t, Old(n)) && HasNew(t, Old(n)) && (!InHeap(s, Old(n)) || (Old(n) == root && n !in tagged)) ==>
      n in rem'[|rem|..])
  }

  const NO_ROOT := Src(0)

  lemma RemembersNone(s: State, t: State, rem: seq<nat>, tagged: set<nat>)
    requires forall n: nat {:trigger InHeap(t, Old(n))} ::
      InHeap(t, Old(n)) && !InHeap(s, Old(n)) ==> !HasNew(t, Old(n))
    ensures Remembers(s, t, rem, rem, tagged, tagged, NO_ROOT)
  {
    assert rem[|rem|..] == [];
  }

  /** Objects that exist stay, and their new pointers stay. */
  lemma HasNewStays(s: State, t: State, q: Ref)
    requires InHeap(s, q) && InHeap(t, q) && Get(t, q) == Get(s, q)
    ensures HasNew(t, q) <==> HasNew(s, q)
  {}

  /** Two stretches of remembering in a row. */
  lemma RemembersOn(s: State, t: State, u: State, r: Ref, lo: nat, hi: nat, rem: seq<nat>, rem1: seq<nat>,
      rem2: seq<nat>, tagged: set<nat>, tagged1: set<nat>, tagged2: set<nat>)
    requires Remembers(s, t, rem, rem1, tagged, tagged1, NO_ROOT) &&
      Remembers(t, u, rem1, rem2, tagged1, tagged2, NO_ROOT)
    requires Later(s, t, r, 0, lo) && Later(t, u, r, lo, hi) && InHeap(s, r)
    ensures Remembers(s, u, rem, rem2, tagged, tagged2, NO_ROOT)
  {
    hide Get, HasNew, InHeap;
    var a, b := rem1[|rem|..], rem2[|rem1|..];
    assert rem2[|rem|..] == a + b;
    forall k | |rem| <= k < |rem2|
      ensures InHeap(u, Old(rem2[k])) && HasNew(u, Old(rem2[k])) && !InHeap(s, Old(rem2[k])) {
      if k < |rem1| {
        assert rem2[k] == rem1[k];
        HasNewStays(t, u, Old(rem1[k]));
      }
    }
    forall n: nat | InHeap(u, Old(n)) && HasNew(u, Old(n)) && !InHeap(s, Old(n)) ensures n in rem2[|rem|..] {
      if InHeap(t, Old(n)) { HasNewStays(t, u, Old(n)); assert n in a; } else { assert n in b; }
    }
    forall n ensures n in tagged2 <==> n in tagged || n in rem2[|rem|..]
      { assert n in tagged1 <==> n in tagged || n in a; }
  }

  /** The stretch that makes q and then iterates it. */
  lemma RemembersVia(s: State, t: State, u: State, q: Ref, rem: seq<nat>, rem': seq<nat>, tagged: set<nat>,
      tagged': set<nat>)
    requires Remembers(t, u, rem, rem', tagged, tagged', q) && !InHeap(s, q) && (q.Old? ==> q.n !in tagged)
    requires forall x {:trigger InHeap(t, x)} {:trigger InHeap(s, x)} :: InHeap(t, x) <==> InHeap(s, x) || x == q
    ensures Remembers(s, u, rem, rem', tagged, tagged', NO_ROOT)
  {
    hide Get, HasNew, InHeap;
    forall k | |rem| <= k < |rem'|
      ensures !InHeap(s, Old(rem'[k])) { assert !InHeap(t, Old(rem'[k])) || Old(rem'[k]) == q; }
    forall n: nat | InHeap(u, Old(n)) && HasNew(u, Old(n)) && !InHeap(s, Old(n)) ensures n in rem'[|rem|..] {
      assert InHeap(t, Old(n)) ==> Old(n) == q;
    }
  }

  /** The root itself, at the end of its own iteration. */
  lemma RemembersRoot(s: State, t: State, r: Ref, rem: seq<nat>, rem1: seq<nat>, tagged: set<nat>, tagged1: set<nat>,
      add: bool)
    requires Remembers(s, t, rem, rem1, tagged, tagged1, NO_ROOT) && InHeap(s, r) && InHeap(t, r)
    requires add <==> r.Old? && HasNew(t, r) && r.n !in tagged1
    ensures add ==> Remembers(s, t, rem, rem1 + [r.n], tagged, tagged1 + {r.n}, r)
    ensures !add ==> Remembers(s, t, rem, rem1, tagged, tagged1, r)
  {
    hide Get, HasNew, InHeap;
    assert r.Old? ==> r.n !in rem1[|rem|..] by {
      forall k | |rem| <= k < |rem1| ensures Old(rem1[k]) != r { assert !InHeap(s, Old(rem1[k])); }
    }
    if add {
      var rem2 := rem1 + [r.n];
      assert rem2[|rem|..] == rem1[|rem|..] + [r.n];
      assert rem2[..|rem|] == rem;
      forall k | |rem| <= k < |rem2|
        ensures InHeap(t, Old(rem2[k])) && HasNew(t, Old(rem2[k])) && (!InHeap(s, Old(rem2[k])) || Old(rem2[k]) == r) {
        if k < |rem1| { assert rem2[k] == rem1[k]; }
      }
    }
  }

  lemma LaterVia(s: State, t: State, u: State, r: Ref, i: nat, q: Ref, hi: nat)
    requires Later(s, t, r, i, i + 1) && Later(t, u, q, 0, hi) && !InHeap(s, q) && InHeap(s, r)
    ensures Later(s, u, r, i, i + 1)
  {
    hide Get, InHeap;
    forall x | InHeap(s, x) ensures InHeap(u, x) && (x != r ==> Get(u, x) == Get(s, x))
      { assert InHeap(t, x) && x != q; }
    forall x | InHeap(u, x) && !InHeap(s, x)
      ensures x in u.origin && x !in s.origin { if InHeap(t, x) { assert x in t.origin; } }
    assert Get(u, r) == Get(t, r);
  }

  lemma NewDoneVia(s: State, t: State, u: State, q: Ref, hi: nat)
    requires Later(t, u, q, 0, hi) && NewDone(t, u) && InHeap(t, q) && InHeap(u, q) && Done(u, q)
    requires forall x {:trigger InHeap(t, x)} {:trigger InHeap(s, x)} :: InHeap(t, x) <==> InHeap(s, x) || x == q
    ensures NewDone(s, u)
  {
    hide Get, InHeap, Done;
    forall x | InHeap(u, x) && !InHeap(s, x) ensures Done(u, x) { if x != q { assert !InHeap(t, x); } }
  }

  lemma NewDoneOn(s: State, t: State, u: State, r: Ref, lo: nat, hi: nat)
    requires NewDone(s, t) && NewDone(t, u) && Later(t, u, r, lo, hi) && InHeap(s, r)
    ensures NewDone(s, u)
  {
    hide InHeap, Get;
    forall x | InHeap(u, x) && !InHeap(s, x) ensures Done(u, x) {
      if InHeap(t, x) { assert Done(t, x) && Get(u, x) == Get(t, x); StillDone(t, u, x); }
    }
  }

  lemma StillDone(t: State, u: State, x: Ref)
    requires InHeap(t, x) && InHeap(u, x) && Get(u, x) == Get(t, x) && Done(t, x)
    ensures Done(u, x)
  {}

  // ----- the pass over the recorded old objects -----

  /** Every promoted or copied object, and every recorded object visited, is finished; the
      other old objects are as they were. */
  ghost predicate PassDone(b: Before, s: State, visited: seq<nat>)
  {
    && (forall r {:trigger InHeap(s, r)} :: InHeap(s, r) && Visited(s, visited, r) ==> Done(s, r))
    && (forall n {:trigger n in b.tenured} {:trigger Old(n) in s.origin} ::
      n in b.tenured ==> Old(n) !in s.origin && InHeap(s, Old(n)) && (n !in visited ==> Get(s, Old(n)) == b.tenured[n]))
  }

  /** The remembered set, as a set, is the visited and promoted objects that point to the
      destination. */
  ghost predicate PassRemembers(s: State, visited: seq<nat>, rem: seq<nat>)
  {
    && (forall k {:trigger rem[k]} ::
      0 <= k < |rem| ==> InHeap(s, Old(rem[k])) && HasNew(s, Old(rem[k])) && Visited(s, visited, Old(rem[k])))
    && (forall n {:trigger InHeap(s, Old(n))} ::
      InHeap(s, Old(n)) && HasNew(s, Old(n)) && Visited(s, visited, Old(n)) ==> n in rem)
  }

  /** An old object is tagged exactly if it is in the new set, or recorded and not yet visited. */
  ghost predicate TagsAre(tagged: set<nat>, remembered: seq<nat>, visited: seq<nat>, recorded: seq<nat>)
  {
    forall n {:trigger n in tagged} :: n in tagged <==> n in remembered || (n in recorded && n !in visited)
  }

  lemma TagsOn(s: State, t: State, n: nat, visited: seq<nat>, recorded: seq<nat>, rem: seq<nat>, rem': seq<nat>,
      tagged: set<nat>, tagged': set<nat>)
    requires TagsAre(tagged, rem, visited, recorded) && InHeap(t, Old(n))
    requires Remembers(s, t, rem, rem', tagged - {n}, tagged', Old(n)) && (n in rem ==> HasNew(t, Old(n)))
    ensures TagsAre(tagged', rem', visited + [n], recorded)
  {
    hide InHeap, HasNew;
    var added := rem'[|rem|..];
    assert rem' == rem + added;
    forall m ensures m in tagged' <==> m in rem' || (m in recorded && m !in visited + [n]) {
      assert m in tagged' <==> m in tagged - {n} || m in added;
      if m == n && n in rem { assert n in added; }
    }
  }

  lemma TagsRoot(s: State, t: State, rem: seq<nat>, rem': seq<nat>, tagged: set<nat>, tagged': set<nat>,
      recorded: seq<nat>)
    requires TagsAre(tagged, rem, recorded, recorded) && Remembers(s, t, rem, rem', tagged, tagged', NO_ROOT)
    ensures TagsAre(tagged', rem', recorded, recorded)
  {
    hide InHeap, HasNew;
    assert rem' == rem + rem'[|rem|..];
  }

  lemma TagsEnd(tagged: set<nat>, remembered: seq<nat>, recorded: seq<nat>)
    requires TagsAre(tagged, remembered, recorded, recorded)
    ensures forall n {:trigger n in tagged} :: n in tagged <==> n in remembered
  {
  }

  /** Where objects come from, and that old ones are never copies. */
  lemma Origins(b: Before, t: State)
    requires Valid(b, t)
    ensures forall n {:trigger Old(n) in t.origin} :: n in b.tenured ==> Old(n) !in t.origin
    ensures forall r {:trigger InHeap(t, r)} :: InHeap(t, r) ==> r in t.origin || (r.Old? && r.n in b.tenured)
    ensures forall n {:trigger n in b.tenured} :: n in b.tenured ==> InHeap(t, Old(n))
  {
    hide BeforeOk, Used, Copied;
    forall n | n in b.tenured ensures InHeap(t, Old(n)) { assert n in t.tenured; }
  }

  ghost predicate Visited(s: State, visited: seq<nat>, r: Ref)
  {
    r in s.origin || (r.Old? && r.n in visited)
  }

  /** One more recorded object iterated. */
  lemma PassOn(b: Before, s: State, t: State, n: nat, hi: nat, visited: seq<nat>)
    requires PassDone(b, s, visited) && Later(s, t, Old(n), 0, hi) && NewDone(s, t) && n in b.tenured &&
      InHeap(t, Old(n)) && Done(t, Old(n)) && Valid(b, s) && Valid(b, t)
    ensures PassDone(b, t, visited + [n])
  {
    hide Valid, InHeap, Get, Done;
    Origins(b, s);
    Origins(b, t);
    forall r | InHeap(t, r) && Visited(t, visited + [n], r) ensures Done(t, r) {
      if InHeap(s, r) && r != Old(n) {
        assert Visited(s, visited, r);
        assert Get(t, r) == Get(s, r);
        StillDone(s, t, r);
      }
    }
    forall m | m in b.tenured ensures Old(m) !in t.origin && InHeap(t, Old(m)) &&
      (m !in visited + [n] ==> Get(t, Old(m)) == b.tenured[m]) {
      assert InHeap(s, Old(m));
    }
  }

  lemma PassRemembersOn(b: Before, s: State, t: State, n: nat, hi: nat, visited: seq<nat>, rem: seq<nat>,
      rem': seq<nat>, tagged: set<nat>, tagged': set<nat>)
    requires PassRemembers(s, visited, rem) && Later(s, t, Old(n), 0, hi) && n in b.tenured && InHeap(t, Old(n)) &&
      Valid(b, s) && Valid(b, t)
    requires Remembers(s, t, rem, rem', tagged, tagged', Old(n)) && n !in tagged
    requires n in rem ==> HasNew(t, Old(n))
    ensures PassRemembers(t, visited + [n], rem')
  {
    hide Valid, InHeap, Get, HasNew;
    Origins(b, s);
    Origins(b, t);
    assert rem' == rem + rem'[|rem|..];
    forall k | 0 <= k < |rem'| ensures InHeap(t, Old(rem'[k])) && HasNew(t, Old(rem'[k])) &&
      Visited(t, visited + [n], Old(rem'[k])) {
      if k < |rem| {
        assert rem'[k] == rem[k];
        assert InHeap(s, Old(rem[k])) && Visited(s, visited, Old(rem[k]));
        if rem[k] != n { HasNewStays(s, t, Old(rem[k])); }
      } else {
        assert InHeap(t, Old(rem'[k]));
      }
    }
    forall m: nat | InHeap(t, Old(m)) && HasNew(t, Old(m)) && Visited(t, visited + [n], Old(m)) ensures m in rem' {
      if m == n || !InHeap(s, Old(m)) {
        assert m in rem'[|rem|..];
      } else {
        HasNewStays(s, t, Old(m));
        assert Visited(s, visited, Old(m));
        assert m in rem;
      }
    }
  }

  /** A root slot processed. */
  lemma PassRoot(b: Before, s: State, t: State, visited: seq<nat>)
    requires PassDone(b, s, visited) && Later(s, t, NO_ROOT, 0, 0) && NewDone(s, t) && Valid(b, s) && Valid(b, t)
    ensures PassDone(b, t, visited)
  {
    hide Valid, Get, Done;
    Origins(b, s);
    Origins(b, t);
    assert !InHeap(s, NO_ROOT);
    hide InHeap;
    forall r | InHeap(t, r) && Visited(t, visited, r) ensures Done(t, r) {
      if InHeap(s, r) { assert Visited(s, visited, r); StillDone(s, t, r); }
    }
    forall m | m in b.tenured ensures Old(m) !in t.origin && InHeap(t, Old(m)) &&
      (m !in visited ==> Get(t, Old(m)) == b.tenured[m]) {
      assert InHeap(s, Old(m));
    }
  }

  lemma PassRemembersRoot(b: Before, s: State, t: State, visited: seq<nat>, rem: seq<nat>, rem': seq<nat>,
      tagged: set<nat>, tagged': set<nat>)
    requires PassRemembers(s, visited, rem) && Later(s, t, NO_ROOT, 0, 0) && Valid(b, s) && Valid(b, t)
    requires Remembers(s, t, rem, rem', tagged, tagged', NO_ROOT)
    ensures PassRemembers(t, visited, rem')
  {
    hide Valid, Get, HasNew;
    Origins(b, s);
    Origins(b, t);
    assert !InHeap(s, NO_ROOT);
    hide InHeap;
    assert rem' == rem + rem'[|rem|..];
    forall k | 0 <= k < |rem'| ensures InHeap(t, Old(rem'[k])) && HasNew(t, Old(rem'[k])) &&
      Visited(t, visited, Old(rem'[k])) {
      if k < |rem| {
        assert rem'[k] == rem[k];
        assert InHeap(s, Old(rem[k])) && Visited(s, visited, Old(rem[k]));
        HasNewStays(s, t, Old(rem[k]));
      } else {
        assert InHeap(t, Old(rem'[k])) && !InHeap(s, Old(rem'[k]));
      }
    }
    forall m: nat | InHeap(t, Old(m)) && HasNew(t, Old(m)) && Visited(t, visited, Old(m)) ensures m in rem' {
      if InHeap(s, Old(m)) {
        HasNewStays(s, t, Old(m));
        assert Visited(s, visited, Old(m));
        assert m in rem;
      }
    }
  }

  /** A finished object is finished once and for all. */
  lemma DoneOnce(b: Before, s: State, t: State, r: Ref)
    requires Valid(b, s) && Valid(b, t) && InHeap(s, r) && InHeap(t, r) && Done(s, r) && Done(t, r)
    requires HasOrigin(b, s, r) && HasOrigin(b, t, r) && Was(b, s, r) == Was(b, t, r)
    requires forall a {:trigger s.forward[a]} :: a in s.forward ==> a in t.forward && t.forward[a] == s.forward[a]
    ensures Get(t, r).slots == Get(s, r).slots
  {
    var o := Was(b, s, r);
    forall i: nat | i < |o.slots| ensures i < |Get(s, r).slots| && i < |Get(t, r).slots| &&
      Get(t, r).slots[i] == Get(s, r).slots[i] {
      SameCount(b, s, r);
      SameCount(b, t, r);
      SlotKnown(b, s, r, i);
      SlotKnown(b, t, r, i);
      assert !IsSrc(Get(s, r).slots[i]) && !IsSrc(Get(t, r).slots[i]);
    }
    SameCount(b, s, r);
    SameCount(b, t, r);
  }

  lemma SameCount(b: Before, s: State, r: Ref)
    requires Valid(b, s) && InHeap(s, r) && HasOrigin(b, s, r)
    ensures |Get(s, r).slots| == |Was(b, s, r).slots|
  {
    hide BeforeOk, Forwards, Spaces;
  }

  class Collector {
    const src: map<nat, Obj>
    const survivorEnd: nat
    const capacity: nat
    var tenured: map<nat, Obj>
    var nextOld: nat
    var dst: map<nat, Obj>
    var top: nat
    var forward: map<nat, Ref>
    var remembered: seq<nat>
    var tagged: set<nat>
    ghost const before: Before
    ghost const starts: set<nat>
    ghost var origin: map<Ref, nat>

    /** The heap as a scavenge finds it, with the remembered sets already detached. */
    constructor (tenured: map<nat, Obj>, nextOld: nat, src: map<nat, Obj>, survivorEnd: nat, capacity: nat,
        tagged: set<nat>, ghost recorded: seq<nat>, ghost roots: seq<Value>)
      requires BeforeOk(Before(tenured, src, survivorEnd, capacity))
      requires forall n {:trigger n in tenured} :: n in tenured ==> n < nextOld
      requires forall n {:trigger n in recorded} :: n in recorded ==> n in tenured
      requires forall n {:trigger n in tenured} :: n in tenured && n !in recorded ==> NoSource(tenured[n])
      requires forall n {:trigger n in tagged} :: n in tagged <==> n in recorded
      requires forall i {:trigger roots[i]} ::
        0 <= i < |roots| ==> ValueOk(Before(tenured, src, survivorEnd, capacity), roots[i])
      ensures Begun(recorded, roots) && before == Before(tenured, src, survivorEnd, capacity)
    {
      this.tenured, this.nextOld, this.src, this.survivorEnd, this.capacity :=
        tenured, nextOld, src, survivorEnd, capacity;
      dst, top, forward, remembered := map[], 0, map[], [];
      this.tagged := tagged;
      before := Before(tenured, src, survivorEnd, capacity);
      starts := StartSet(Before(tenured, src, survivorEnd, capacity), recorded, roots);
      origin := map[];
      new;
      StartsAre(before, recorded, roots);
      Unstarted(before, Now());
    }

    ghost function Now(): State
      reads this
    {
      State(tenured, dst, top, forward, origin)
    }

    ghost predicate Ok()
      reads this
    {
      && before.src == src && before.survivorEnd == survivorEnd && before.capacity == capacity
      && Valid(before, Now()) && OnlyReached(before, starts, Now())
      && (forall n {:trigger n in tenured} :: n in tenured ==> n < nextOld)
      && (forall n {:trigger n in tagged} :: n in tagged ==> n in tenured)
    }

    /** forwardObject: survivors of the last scavenge are promoted, the rest copied; the copy
        always fits. */
    method ForwardObject(a: nat) returns (r: Ref)
      requires Ok() && a in src && a !in forward && Reached(before, starts, a)
      modifies this
      ensures Ok() && FreshFor(before, old(Now()), a, r) && Now() == Evacuate(before, old(Now()), a, r)
      ensures remembered == old(remembered) && tagged == old(tagged)
      ensures r.Dst? ==> r.a + src[a].size <= capacity
    {
      hide Valid, Reached;
      var body := src[a];
      if a < survivorEnd {
        r := Old(nextOld);
        EvacuateKeeps(before, Now(), a, r);
        tenured := tenured[nextOld := body];
        nextOld := nextOld + 1;
      } else {
        RoomLeft(before, Now(), a);
        assert top + body.size <= capacity;
        r := Dst(top);
        EvacuateKeeps(before, Now(), a, r);
        dst := dst[top := body];
        top := top + body.size;
      }
      forward := forward[a := r];
      origin := origin[r := a];
      assert Now() == Evacuate(before, old(Now()), a, r);
    }

    /** How much is still to be evacuated. */
    ghost function Left(): nat
      reads this
    {
      |src.Keys - forward.Keys|
    }

    function Slots(r: Ref): (slots: seq<Value>)
      requires InHeap(Now(), r)
      reads this
      ensures slots == Get(Now(), r).slots
    {
      match r { case Old(n) => tenured[n].slots case Dst(a) => dst[a].slots }
    }

    /** Write v, the image of what the slot held before the scavenge. */
    method StoreSlot(r: Ref, i: nat, v: Value)
      requires Ok() && InHeap(Now(), r) && i < |Slots(r)| && HasOrigin(before, Now(), r) &&
        i < |Was(before, Now(), r).slots|
      requires HasImage(Now(), Was(before, Now(), r).slots[i]) && v == Image(Now(), Was(before, Now(), r).slots[i])
      modifies this
      ensures Ok() && InHeap(old(Now()), r) && i < |Get(old(Now()), r).slots| && Now() == Store(old(Now()), r, i, v)
      ensures remembered == old(remembered) && tagged == old(tagged) && forward == old(forward) && origin == old(origin)
    {
      hide Valid, Reached, HasOrigin, Was, Image, HasImage, OnlyReached;
      StoreKeeps(before, Now(), r, i, v);
      StoreReached(before, starts, Now(), r, i, v);
      if r.Old? {
        tenured := tenured[r.n := WithSlot(tenured[r.n], i, v)];
      } else {
        dst := dst[r.a := WithSlot(dst[r.a], i, v)];
      }
      assert Now() == Store(old(Now()), r, i, v);
    }

    /** processPointer and processTaggedPointer on slot i of r: the slot no longer points into
        the abandoned semispace, and whatever was evacuated on the way is finished. */
    method ProcessSlot(r: Ref, i: nat) returns (v: Value)
      requires Ok() && InHeap(Now(), r) && i < |Get(Now(), r).slots|
      requires HasOrigin(before, Now(), r) && SlotsReached(before, starts, Was(before, Now(), r))
      modifies this
      ensures Ok() && Later(old(Now()), Now(), r, i, i + 1) && NewDone(old(Now()), Now())
      ensures InHeap(Now(), r) && i < |Get(Now(), r).slots| && Get(Now(), r).slots[i] == v && !IsSrc(v)
      ensures Remembers(old(Now()), Now(), old(remembered), remembered, old(tagged), tagged, NO_ROOT)
      ensures Left() <= old(Left())
      decreases Left(), 1
    {
      hide Valid, Reached, Remembers, NewDone, Later, Used, InHeap, Get, HasOrigin, Was, Evacuate, Store;
      v := Slots(r)[i];
      ghost var s := Now();
      ghost var w := Was(before, s, r).slots;
      assert i < |w| && SlotOk(s, w[i], v) by { SlotKnown(before, s, r, i); }
      if !v.Ptr? || v.r.Old? {
        Idle(s, r, i, remembered, tagged);
        return;
      }
      if v.r.Dst? {
        // already at its destination: the object was recorded more than once
        Idle(s, r, i, remembered, tagged);
        return;
      }
      var a := v.r.a;
      SourceKnown(before, s, r, i);
      assert Reached(before, starts, a);
      if a in forward {
        v := Ptr(forward[a]);
        StoreSlot(r, i, v);
        ForwardedSlot(before, s, Now(), r, i, v, remembered, tagged);
        return;
      }
      v := EvacuateSlot(r, i, a);
    }

    /** Slot i of r points to an object not yet evacuated: forward it, then iterate its copy. */
    method EvacuateSlot(r: Ref, i: nat, a: nat) returns (v: Value)
      requires Ok() && InHeap(Now(), r) && i < |Get(Now(), r).slots| && Get(Now(), r).slots[i] == Ptr(Src(a))
      requires a in src && a !in forward && Reached(before, starts, a)
      modifies this
      ensures Ok() && Later(old(Now()), Now(), r, i, i + 1) && NewDone(old(Now()), Now())
      ensures InHeap(Now(), r) && i < |Get(Now(), r).slots| && Get(Now(), r).slots[i] == v && !IsSrc(v)
      ensures Remembers(old(Now()), Now(), old(remembered), remembered, old(tagged), tagged, NO_ROOT)
      ensures Left() <= old(Left())
      decreases Left(), 0
    {
      hide Valid, Reached, Remembers, NewDone, Later, Used, InHeap, Get, HasOrigin, Was, Evacuate, Store, SlotsReached;
      ghost var s, rem, tags := Now(), remembered, tagged;
      assert before.src == src;
      var q := ForwardObject(a);
      v := Ptr(q);
      ghost var t := Now();
      EvacuatedOrigins(before, s, t, a, q, r, i);
      StoreSlot(r, i, v);
      ghost var u := Now();
      EvacuatedSlot(before, s, t, u, r, i, a, q);
      SameOrigins(before, t, u, q);
      FewerLeft(src, s.forward, forward, a);
      NotTagged(s, q, tags);
      ReachedOn(before, starts, a);
      IterateObject(q);
      EvacuatedDone(s, u, Now(), r, i, q, |src[a].slots|, rem, remembered, tags, tagged);
      NotSource(before, s, a, q);
    }

    /** iterateObject: class first, then every variable; an old object that ends up pointing to
        the destination semispace is remembered. */
    method IterateObject(r: Ref)
      requires Ok() && InHeap(Now(), r)
      requires HasOrigin(before, Now(), r) && SlotsReached(before, starts, Was(before, Now(), r))
      modifies this
      ensures Ok() && Later(old(Now()), Now(), r, 0, |Get(old(Now()), r).slots|) && NewDone(old(Now()), Now())
      ensures InHeap(Now(), r) && Done(Now(), r)
      ensures Remembers(old(Now()), Now(), old(remembered), remembered, old(tagged), tagged, r)
      ensures Left() <= old(Left())
      decreases Left(), 3
    {
      hide Valid, Reached, Remembers, NewDone, Used, Later, InHeap, Get, HasOrigin, Was, SlotsReached, HasNew, Ok,
        NewBelow, Iterated;
      ghost var s := Now();
      ghost var rem, tags := remembered, tagged;
      var n := |Slots(r)|;
      var remember := IterateSlots(r, n);
      FinishedOne(before, s, Now(), r, n);
      var add := remember && r.Old? && r.n !in tagged;
      RemembersRoot(s, Now(), r, rem, remembered, tags, tagged, add);
      if add {
        InTenured(Now(), r);
        RememberedSetAdd(r.n);
      }
    }

    method IterateSlots(r: Ref, n: nat) returns (remember: bool)
      requires Ok() && InHeap(Now(), r) && n == |Get(Now(), r).slots|
      requires HasOrigin(before, Now(), r) && SlotsReached(before, starts, Was(before, Now(), r))
      modifies this
      ensures Ok() && Iterated(before, old(Now()), Now(), r, n, n)
      ensures remember <==> InHeap(Now(), r) && n <= |Get(Now(), r).slots| && NewBelow(Now(), r, n)
      ensures Remembers(old(Now()), Now(), old(remembered), remembered, old(tagged), tagged, NO_ROOT)
      ensures Left() <= old(Left())
      decreases Left(), 2
    {
      hide Valid, Reached, Remembers, NewDone, Used, Later, InHeap, Get, HasOrigin, Was, SlotsReached, HasNew, Ok,
        NewBelow, Iterated, SlotsReached, Left;
      ghost var s := Now();
      ghost var rem, tags := remembered, tagged;
      ghost var o := Was(before, s, r);
      remember := false;
      var i := 0;
      Started(before, s, r, remembered, tagged);
      while i < n
        invariant 0 <= i <= n && Ok() && Iterated(before, s, Now(), r, i, n)
        invariant remember <==> InHeap(Now(), r) && i <= |Get(Now(), r).slots| && NewBelow(Now(), r, i)
        invariant Remembers(s, Now(), rem, remembered, tags, tagged, NO_ROOT)
        invariant HasOrigin(before, Now(), r) && Was(before, Now(), r) == o
        invariant Left() <= old(Left())
      {
        hide Valid, Reached, Remembers, NewDone, Used, Later, InHeap, Get, HasOrigin, Was, SlotsReached, NewBelow,
          FinalBelow, HasNew, Ok, Iterated, Left;
        ghost var t := Now();
        ghost var rem1, tags1 := remembered, tagged;
        SlotReady(before, s, t, r, i, n);
        var v := ProcessSlot(r, i);
        RemembersOn(s, t, Now(), r, i, i + 1, rem, rem1, remembered, tags, tags1, tagged);
        IsValid();
        IteratedOn(before, s, t, Now(), r, i, n, v);
        remember := remember || IsNew(v);
        i := i + 1;
      }
    }

    /** A root slot: its new value, with what it leads to evacuated and finished. */
    method ProcessRoot(v: Value) returns (v': Value)
      requires Ok() && ValueOk(before, v) && (IsSrc(v) ==> Reached(before, starts, v.r.a))
      modifies this
      ensures Ok() && Later(old(Now()), Now(), NO_ROOT, 0, 0) && NewDone(old(Now()), Now())
      ensures HasImage(Now(), v) && v' == Image(Now(), v) && !IsSrc(v')
      ensures Remembers(old(Now()), Now(), old(remembered), remembered, old(tagged), tagged, NO_ROOT)
    {
      hide Valid, Reached, Remembers, NewDone, Later, Used, InHeap, Get, HasOrigin, Was, Evacuate, SlotsReached;
      ghost var s, rem, tags := Now(), remembered, tagged;
      assert before.src == src;
      if !IsSrc(v) {
        IdleRoot(s, remembered, tagged);
        return v;
      }
      var a := v.r.a;
      if a in forward {
        IdleRoot(s, remembered, tagged);
        NeverSource(before, s, a);
        return Ptr(forward[a]);
      }
      var q := ForwardObject(a);
      ghost var t := Now();
      EvacuatedRoot(before, s, t, a, q);
      NotTagged(s, q, tags);
      ReachedOn(before, starts, a);
      IterateObject(q);
      RootDone(s, t, Now(), q, |src[a].slots|, a, rem, remembered, tags, tagged);
      NotSource(before, s, a, q);
      v' := Ptr(q);
    }

    /** Before anything is evacuated. */
    ghost predicate Begun(recorded: seq<nat>, roots: seq<Value>)
      reads this
    {
      && Ok() && tenured == before.tenured && dst == map[] && top == 0 && forward == map[] && origin == map[] &&
        remembered == [] && TagsAre(tagged, [], [], recorded)
      && (forall n {:trigger n in recorded} :: n in recorded ==> n in tenured)
      && (forall n {:trigger n in tenured} :: n in tenured && n !in recorded ==> NoSource(tenured[n]))
      && (forall i {:trigger roots[i]} :: 0 <= i < |roots| ==> ValueOk(before, roots[i]))
      && StartsFrom(before, recorded, roots, starts)
    }

    /** scavengerScavenge, given that every old object pointing into the evacuated semispace is
        recorded, some perhaps more than once. */
    method Scavenge(recorded: seq<nat>, roots: seq<Value>) returns (roots': seq<Value>)
      requires Begun(recorded, roots)
      modifies this
      ensures Ok() && top <= capacity
      ensures RootsDone(Now(), roots, roots')
      ensures forall r {:trigger InHeap(Now(), r)} :: InHeap(Now(), r) ==> Done(Now(), r)
      ensures forall n {:trigger n in remembered} :: n in remembered <==> InHeap(Now(), Old(n)) && HasNew(Now(), Old(n))
      ensures Closed(before, starts, forward.Keys)
      ensures forall n {:trigger n in tagged} :: n in tagged <==> n in remembered
    {
      hide Valid, Reached, Remembers, NewDone, Later, Used, InHeap, Get, HasOrigin, Was, SlotsReached, HasNew, Done,
        PassDone, PassRemembers, Closed, StartsFrom, TagsAre;
      PassStart(before, Now(), recorded, remembered);
      assert forall n {:trigger n in recorded} :: n in recorded ==> n in before.tenured;
      assert forall n {:trigger n in before.tenured} ::
        n in before.tenured && n !in recorded ==> NoSource(before.tenured[n]);
      var k := 0;
      while k < |recorded|
        invariant 0 <= k <= |recorded| && Ok()
        invariant PassDone(before, Now(), recorded[..k]) && PassRemembers(Now(), recorded[..k], remembered)
        invariant TagsAre(tagged, remembered, recorded[..k], recorded)
      {
        hide Valid, Reached, Remembers, NewDone, Later, Used, InHeap, Get, HasOrigin, Was, SlotsReached, HasNew, Done,
          PassDone, PassRemembers, Closed, StartsFrom, TagsAre;
        assert recorded[..k + 1] == recorded[..k] + [recorded[k]];
        assert recorded[k] in recorded;
        VisitRecorded(recorded[k], recorded[..k], recorded, roots);
        k := k + 1;
      }
      assert recorded[..k] == recorded;
      roots' := [];
      var i := 0;
      while i < |roots|
        invariant 0 <= i <= |roots| && |roots'| == i && Ok()
        invariant PassDone(before, Now(), recorded) && PassRemembers(Now(), recorded, remembered)
        invariant RootsDone(Now(), roots[..i], roots') && TagsAre(tagged, remembered, recorded, recorded)
      {
        hide Valid, Reached, Remembers, NewDone, Used, InHeap, Get, HasOrigin, Was, SlotsReached, HasNew, Done,
          PassDone, PassRemembers, Closed, TagsAre;
        ghost var s, rem, tags := Now(), remembered, tagged;
        RootReached(before, recorded, roots, starts, i);
        var v := ProcessRoot(roots[i]);
        PassRoot(before, s, Now(), recorded);
        PassRemembersRoot(before, s, Now(), recorded, rem, remembered, tags, tagged);
        TagsRoot(s, Now(), rem, remembered, tags, tagged, recorded);
        RootsOn(s, Now(), roots[..i], roots', roots[i], v);
        assert roots[..i + 1] == roots[..i] + [roots[i]];
        roots' := roots' + [v];
        i := i + 1;
      }
      assert roots[..i] == roots;
      AllDone(before, Now(), recorded, remembered);
      WithinCapacity(before, Now());
      Covers(before, Now(), recorded, roots, roots', starts);
      TagsEnd(tagged, remembered, recorded);
    }

    method VisitRecorded(n: nat, ghost visited: seq<nat>, ghost recorded: seq<nat>, ghost roots: seq<Value>)
      requires Ok() && n in before.tenured && n in recorded && StartsFrom(before, recorded, roots, starts)
      requires PassDone(before, Now(), visited) && PassRemembers(Now(), visited, remembered)
      requires TagsAre(tagged, remembered, visited, recorded)
      modifies this
      ensures Ok() && PassDone(before, Now(), visited + [n]) && PassRemembers(Now(), visited + [n], remembered)
      ensures TagsAre(tagged, remembered, visited + [n], recorded)
    {
      hide Valid, Reached, Remembers, NewDone, Later, Used, InHeap, Get, HasOrigin, Was, SlotsReached, HasNew, Done,
        PassDone, PassRemembers, StartsFrom, TagsAre;
      ghost var tags0 := tagged;
      tagged := tagged - {n};
      ghost var s, rem, tags := Now(), remembered, tagged;
      OldReady(before, s, visited, n, recorded, roots, starts);
      IterateObject(Old(n));
      ghost var t := Now();
      PassOn(before, s, t, n, |Get(s, Old(n)).slots|, visited);
      StillNew(before, s, t, n, |Get(s, Old(n)).slots|, visited, rem);
      PassRemembersOn(before, s, t, n, |Get(s, Old(n)).slots|, visited, rem, remembered, tags, tagged);
      TagsOn(s, t, n, visited, recorded, rem, remembered, tags0, tagged);
    }

    lemma IsValid()
      requires Ok()
      ensures Valid(before, Now())
    {}

    /** rememberedSetAdd: the object is recorded once and tagged. */
    method RememberedSetAdd(n: nat)
      requires Ok() && n in tenured && n !in tagged
      modifies this
      ensures Ok() && Now() == old(Now()) && forward == old(forward)
      ensures remembered == old(remembered) + [n] && tagged == old(tagged) + {n}
    {
      hide Valid, OnlyReached;
      remembered := remembered + [n];
      tagged := tagged + {n};
      assert Now() == old(Now());
    }
  }

  lemma InTenured(s: State, r: Ref)
    requires InHeap(s, r) && r.Old?
    ensures r.n in s.tenured
  {}

  lemma SlotKnown(b: Before, s: State, r: Ref, i: nat)
    requires Valid(b, s) && InHeap(s, r) && i < |Get(s, r).slots|
    ensures HasOrigin(b, s, r) && |Was(b, s, r).slots| == |Get(s, r).slots| &&
      SlotOk(s, Was(b, s, r).slots[i], Get(s, r).slots[i])
  {
    hide BeforeOk, Forwards, Spaces;
  }

  /** A slot still pointing into the abandoned semispace holds what it held. */
  lemma SourceKnown(b: Before, s: State, r: Ref, i: nat)
    requires Valid(b, s) && InHeap(s, r) && i < |Get(s, r).slots| && IsSrc(Get(s, r).slots[i])
    ensures HasOrigin(b, s, r) && i < |Was(b, s, r).slots| && Was(b, s, r).slots[i] == Get(s, r).slots[i]
    ensures Get(s, r).slots[i].r.a in b.src
  {
    SlotKnown(b, s, r, i);
    var v := Was(b, s, r).slots[i];
    assert ObjOk(b, Was(b, s, r));
    assert HasImage(s, v) && IsSrc(v) ==> !s.forward[v.r.a].Src?;
  }

  lemma NotSource(b: Before, s: State, a: nat, q: Ref)
    requires FreshFor(b, s, a, q)
    ensures !q.Src?
  {}

  // ----- roots -----

  lemma IdleRoot(s: State, rem: seq<nat>, tagged: set<nat>)
    ensures Later(s, s, NO_ROOT, 0, 0) && NewDone(s, s) && Remembers(s, s, rem, rem, tagged, tagged, NO_ROOT)
  {
    RemembersNone(s, s, rem, tagged);
  }

  lemma NeverSource(b: Before, s: State, a: nat)
    requires Valid(b, s) && a in s.forward
    ensures !s.forward[a].Src?
  {
    hide BeforeOk, Copies, Spaces;
  }

  lemma EvacuatedRoot(b: Before, s: State, t: State, a: nat, q: Ref)
    requires Valid(b, s) && a in b.src && a !in s.forward && FreshFor(b, s, a, q) && t == Evacuate(b, s, a, q)
    ensures !InHeap(s, q) && InHeap(t, q) && Get(t, q) == b.src[a] && HasOrigin(b, t, q) && Was(b, t, q) == b.src[a]
    ensures a in t.forward && t.forward[a] == q
    ensures Later(s, t, NO_ROOT, 0, 0)
    ensures forall x {:trigger InHeap(t, x)} {:trigger InHeap(s, x)} :: InHeap(t, x) <==> InHeap(s, x) || x == q
  {
    EvacuateGets(b, s, a, q);
    assert !InHeap(s, NO_ROOT);
    hide Valid, InHeap, Get;
    assert t.forward == s.forward[a := q] && t.origin == s.origin[q := a];
  }

  lemma RootDone(s: State, t: State, e: State, q: Ref, hi: nat, a: nat, rem: seq<nat>, rem': seq<nat>, tagged: set<nat>,
      tagged': set<nat>)
    requires Later(s, t, NO_ROOT, 0, 0) && !InHeap(s, q) && InHeap(t, q) && a in t.forward && t.forward[a] == q
    requires forall x {:trigger InHeap(t, x)} {:trigger InHeap(s, x)} :: InHeap(t, x) <==> InHeap(s, x) || x == q
    requires Later(t, e, q, 0, hi) && NewDone(t, e) && InHeap(e, q) && Done(e, q)
    requires Remembers(t, e, rem, rem', tagged, tagged', q) && (q.Old? ==> q.n !in tagged)
    ensures Later(s, e, NO_ROOT, 0, 0) && NewDone(s, e) && Remembers(s, e, rem, rem', tagged, tagged', NO_ROOT)
    ensures a in e.forward && e.forward[a] == q
  {
    NewDoneVia(s, t, e, q, hi);
    RemembersVia(s, t, e, q, rem, rem', tagged, tagged');
    assert !InHeap(s, NO_ROOT);
    hide Get, InHeap;
    forall x | InHeap(s, x) ensures InHeap(e, x) && (x != NO_ROOT ==> Get(e, x) == Get(s, x))
      { assert InHeap(t, x) && x != q; }
    forall x | InHeap(e, x) && !InHeap(s, x)
      ensures x in e.origin && x !in s.origin { if InHeap(t, x) { assert x in t.origin; } }
  }

  // ----- iterating one object -----

  ghost predicate FinalBelow(t: State, r: Ref, i: nat)
    requires InHeap(t, r)
  {
    i <= |Get(t, r).slots| && forall k {:trigger Get(t, r).slots[k]} :: 0 <= k < i ==> !IsSrc(Get(t, r).slots[k])
  }

  ghost predicate NewBelow(t: State, r: Ref, i: nat)
    requires InHeap(t, r) && i <= |Get(t, r).slots|
  {
    exists k {:trigger Get(t, r).slots[k]} :: 0 <= k < i && IsNew(Get(t, r).slots[k])
  }

  /** The first i slots of r are final, and what was evacuated on the way is finished. */
  ghost predicate Iterated(b: Before, s: State, t: State, r: Ref, i: nat, n: nat)
  {
    && Later(s, t, r, 0, i) && NewDone(s, t) && InHeap(s, r) && InHeap(t, r) && HasOrigin(b, t, r)
    && |Get(t, r).slots| == n && FinalBelow(t, r, i)
  }

  lemma Started(b: Before, s: State, r: Ref, rem: seq<nat>, tagged: set<nat>)
    requires InHeap(s, r) && HasOrigin(b, s, r)
    ensures Iterated(b, s, s, r, 0, |Get(s, r).slots|) && !NewBelow(s, r, 0) &&
      Remembers(s, s, rem, rem, tagged, tagged, NO_ROOT)
  {
    RemembersNone(s, s, rem, tagged);
  }

  lemma SlotReady(b: Before, s: State, t: State, r: Ref, i: nat, n: nat)
    requires Iterated(b, s, t, r, i, n) && i < n
    ensures InHeap(s, r) && InHeap(t, r) && i < |Get(t, r).slots| && Later(s, t, r, 0, i) && |Get(t, r).slots| == n &&
      HasOrigin(b, t, r)
  {}

  lemma IteratedOn(b: Before, s: State, t: State, u: State, r: Ref, i: nat, n: nat, v: Value)
    requires Iterated(b, s, t, r, i, n) && i < n && Later(t, u, r, i, i + 1) && NewDone(t, u) && Valid(b, u)
    requires InHeap(u, r) && i < |Get(u, r).slots| && Get(u, r).slots[i] == v && !IsSrc(v)
    ensures Iterated(b, s, u, r, i + 1, n) && HasOrigin(b, u, r) && Was(b, u, r) == Was(b, t, r)
    ensures NewBelow(u, r, i + 1) <==> NewBelow(t, r, i) || IsNew(v)
  {
    LaterTrans(s, t, u, r, 0, i, i + 1);
    NewDoneOn(s, t, u, r, i, i + 1);
    OriginKept(b, t, u, r, i);
    assert SameOutside(Get(t, r), Get(u, r), i, i + 1);
    hide Valid, InHeap, Get, HasOrigin, Was, NewDone, Later, SameOutside, FinalBelow, NewBelow;
    BelowOn(t, u, r, i, v);
  }

  lemma BelowOn(t: State, u: State, r: Ref, i: nat, v: Value)
    requires InHeap(t, r) && InHeap(u, r) && SameOutside(Get(t, r), Get(u, r), i, i + 1) && i < |Get(u, r).slots| &&
      Get(u, r).slots[i] == v && !IsSrc(v)
    requires FinalBelow(t, r, i)
    ensures FinalBelow(u, r, i + 1) && (NewBelow(u, r, i + 1) <==> NewBelow(t, r, i) || IsNew(v))
  {
    hide InHeap, Get;
    var o, p := Get(t, r), Get(u, r);
    assert forall k {:trigger o.slots[k]} {:trigger p.slots[k]} :: 0 <= k < i ==> p.slots[k] == o.slots[k];
  }

  lemma OriginKept(b: Before, t: State, u: State, r: Ref, i: nat)
    requires Later(t, u, r, i, i + 1) && InHeap(t, r) && InHeap(u, r) && HasOrigin(b, t, r) && Valid(b, u)
    ensures HasOrigin(b, u, r) && Was(b, u, r) == Was(b, t, r)
  {
    hide BeforeOk, Copies, Spaces;
  }

  lemma FinishedOne(b: Before, s: State, t: State, r: Ref, n: nat)
    requires Iterated(b, s, t, r, n, n)
    ensures InHeap(s, r) && InHeap(t, r) && Later(s, t, r, 0, n) && NewDone(s, t) && Done(t, r)
    ensures n == |Get(t, r).slots| == |Get(s, r).slots| && (NewBelow(t, r, n) <==> HasNew(t, r))
  {
    hide InHeap, Get, NewDone;
    AllFinal(t, r);
    assert SameOutside(Get(s, r), Get(t, r), 0, n);
  }

  lemma AllFinal(t: State, r: Ref)
    requires InHeap(t, r) && FinalBelow(t, r, |Get(t, r).slots|)
    ensures Done(t, r) && (NewBelow(t, r, |Get(t, r).slots|) <==> HasNew(t, r))
  {}

  lemma NotTagged(s: State, q: Ref, tagged: set<nat>)
    requires !InHeap(s, q) && forall n {:trigger n in tagged} :: n in tagged ==> n in s.tenured
    ensures q.Old? ==> q.n !in tagged
  {}

  /** Where r and q come from once a is evacuated to q, and what r's slot is to become. */
  lemma EvacuatedOrigins(b: Before, s: State, t: State, a: nat, q: Ref, r: Ref, i: nat)
    requires Valid(b, s) && a in b.src && a !in s.forward && FreshFor(b, s, a, q) && t == Evacuate(b, s, a, q)
    requires InHeap(s, r) && i < |Get(s, r).slots| && Get(s, r).slots[i] == Ptr(Src(a))
    ensures InHeap(t, r) && Get(t, r) == Get(s, r) && HasOrigin(b, t, r) && i < |Was(b, t, r).slots| &&
      Was(b, t, r).slots[i] == Ptr(Src(a))
    ensures HasImage(t, Ptr(Src(a))) && Image(t, Ptr(Src(a))) == Ptr(q)
    ensures HasOrigin(b, t, q) && Was(b, t, q) == b.src[a] && t.forward.Keys == s.forward.Keys + {a} && !InHeap(s, q)
  {
    EvacuateGets(b, s, a, q);
    SourceKnown(b, s, r, i);
    hide Valid, InHeap, Get;
    EvacuateOrigins(b, s, a, q, r);
  }

  lemma SameOrigins(b: Before, t: State, u: State, q: Ref)
    requires u.origin == t.origin && HasOrigin(b, t, q)
    ensures HasOrigin(b, u, q) && Was(b, u, q) == Was(b, t, q)
  {}

  lemma EvacuatedDone(s: State, u: State, e: State, r: Ref, i: nat, q: Ref, hi: nat, rem: seq<nat>, rem': seq<nat>,
      tagged: set<nat>, tagged': set<nat>)
    requires Later(s, u, r, i, i + 1) && InHeap(s, r) && InHeap(u, r) && !InHeap(s, q) && InHeap(u, q)
    requires forall x {:trigger InHeap(u, x)} {:trigger InHeap(s, x)} :: InHeap(u, x) <==> InHeap(s, x) || x == q
    requires Later(u, e, q, 0, hi) && NewDone(u, e) && InHeap(e, q) && Done(e, q)
    requires Remembers(u, e, rem, rem', tagged, tagged', q) && (q.Old? ==> q.n !in tagged)
    ensures Later(s, e, r, i, i + 1) && NewDone(s, e) && Remembers(s, e, rem, rem', tagged, tagged', NO_ROOT)
    ensures InHeap(e, r) && Get(e, r) == Get(u, r)
  {
    LaterVia(s, u, e, r, i, q, hi);
    NewDoneVia(s, u, e, q, hi);
    RemembersVia(s, u, e, q, rem, rem', tagged, tagged');
    KeptSlot(u, e, r, q, hi);
  }

  lemma EvacuateOrigins(b: Before, s: State, a: nat, q: Ref, r: Ref)
    requires Valid(b, s) && a in b.src && a !in s.forward && FreshFor(b, s, a, q) && q !in s.origin
    requires InHeap(s, r) && HasOrigin(b, s, r) && r != q
    ensures var t := Evacuate(b, s, a, q);
      HasOrigin(b, t, r) && Was(b, t, r) == Was(b, s, r) && HasOrigin(b, t, q) && Was(b, t, q) == b.src[a]
    ensures var t := Evacuate(b, s, a, q); t.forward == s.forward[a := q] && t.forward.Keys == s.forward.Keys + {a}
  {
    hide Valid;
  }

  lemma Idle(s: State, r: Ref, i: nat, rem: seq<nat>, tagged: set<nat>)
    ensures Later(s, s, r, i, i + 1) && NewDone(s, s) && Remembers(s, s, rem, rem, tagged, tagged, NO_ROOT)
  {
    RemembersNone(s, s, rem, tagged);
  }

  lemma ForwardedSlot(b: Before, s: State, t: State, r: Ref, i: nat, v: Value, rem: seq<nat>, tagged: set<nat>)
    requires Valid(b, s) && InHeap(s, r) && i < |Get(s, r).slots| && t == Store(s, r, i, v)
    requires IsSrc(Get(s, r).slots[i]) && Get(s, r).slots[i].r.a in s.forward &&
      v == Ptr(s.forward[Get(s, r).slots[i].r.a])
    ensures Later(s, t, r, i, i + 1) && NewDone(s, t) && Remembers(s, t, rem, rem, tagged, tagged, NO_ROOT)
    ensures InHeap(t, r) && Get(t, r) == WithSlot(Get(s, r), i, v) && !IsSrc(v)
  {
    StoreGets(s, r, i, v);
    LaterStore(s, r, i, v);
    assert !s.forward[Get(s, r).slots[i].r.a].Src? by { hide Copies, Spaces, BeforeOk; }
    hide Valid, InHeap, Get, Store, Later;
    RemembersNone(s, t, rem, tagged);
  }

  lemma EvacuatedSlot(b: Before, s: State, t: State, u: State, r: Ref, i: nat, a: nat, q: Ref)
    requires Valid(b, s) && a in b.src && a !in s.forward && FreshFor(b, s, a, q) && t == Evacuate(b, s, a, q)
    requires InHeap(s, r) && InHeap(t, r) && i < |Get(t, r).slots| && u == Store(t, r, i, Ptr(q))
    ensures Later(s, u, r, i, i + 1) && !InHeap(s, q) && InHeap(u, q) && Get(u, q) == b.src[a]
    ensures forall x {:trigger InHeap(u, x)} {:trigger InHeap(s, x)} :: InHeap(u, x) <==> InHeap(s, x) || x == q
    ensures InHeap(u, r) && Get(u, r) == WithSlot(Get(t, r), i, Ptr(q))
  {
    EvacuateGets(b, s, a, q);
    StoreGets(t, r, i, Ptr(q));
    LaterEvacuate(b, s, a, q, r, i);
    hide Valid, InHeap, Get, Evacuate, Store;
    LaterStore(t, r, i, Ptr(q));
    LaterSame(s, t, u, r, i);
  }

  lemma LaterEvacuate(b: Before, s: State, a: nat, q: Ref, r: Ref, i: nat)
    requires Valid(b, s) && a in b.src && a !in s.forward && FreshFor(b, s, a, q) && InHeap(s, r)
    ensures Later(s, Evacuate(b, s, a, q), r, i, i + 1)
  {
    hide Valid, InHeap, Get;
    EvacuateGets(b, s, a, q);
    var t := Evacuate(b, s, a, q);
    assert t.forward == s.forward[a := q] && t.origin == s.origin[q := a];
    hide Evacuate;
  }

  lemma LaterStore(s: State, r: Ref, i: nat, v: Value)
    requires InHeap(s, r) && i < |Get(s, r).slots|
    ensures Later(s, Store(s, r, i, v), r, i, i + 1)
    ensures Store(s, r, i, v).origin == s.origin && Store(s, r, i, v).forward == s.forward
  {
    StoreGets(s, r, i, v);
    hide InHeap, Get;
  }

  lemma LaterSame(s: State, t: State, u: State, r: Ref, i: nat)
    requires Later(s, t, r, i, i + 1) && Later(t, u, r, i, i + 1) && InHeap(s, r)
    ensures Later(s, u, r, i, i + 1)
  {
    hide InHeap, Get;
    forall q | InHeap(s, q) ensures InHeap(u, q) && (q != r ==> Get(u, q) == Get(s, q)) { assert InHeap(t, q); }
    forall q | InHeap(u, q) && !InHeap(s, q)
      ensures q in u.origin && q !in s.origin { if InHeap(t, q) { assert q in t.origin; } }
    assert InHeap(t, r);
  }

  lemma KeptSlot(u: State, e: State, r: Ref, q: Ref, hi: nat)
    requires Later(u, e, q, 0, hi) && InHeap(u, r) && r != q
    ensures InHeap(e, r) && Get(e, r) == Get(u, r)
  {}

  lemma FewerLeft(src: map<nat, Obj>, f: map<nat, Ref>, g: map<nat, Ref>, a: nat)
    requires a in src && a !in f && g.Keys == f.Keys + {a}
    ensures |src.Keys - g.Keys| < |src.Keys - f.Keys|
  {
    assert src.Keys - f.Keys == (src.Keys - g.Keys) + {a};
  }

  // ----- the whole scavenge -----

  ghost predicate NoSource(o: Obj)
  {
    forall i {:trigger o.slots[i]} :: 0 <= i < |o.slots| ==> !IsSrc(o.slots[i])
  }

  /** starts is what the roots and the recorded objects point to in the evacuated semispace. */
  ghost predicate StartsFrom(b: Before, recorded: seq<nat>, roots: seq<Value>, starts: set<nat>)
  {
    && (forall i {:trigger roots[i]} :: 0 <= i < |roots| && IsSrc(roots[i]) ==> roots[i].r.a in starts)
    && (forall n, i {:trigger b.tenured[n].slots[i]} ::
      n in recorded && n in b.tenured && 0 <= i < |b.tenured[n].slots| && IsSrc(b.tenured[n].slots[i]) ==>
      b.tenured[n].slots[i].r.a in starts)
    && (forall a {:trigger a in starts} :: a in starts ==> FromRoot(roots, a) || FromRecorded(b, recorded, a))
  }

  ghost predicate FromRoot(roots: seq<Value>, a: nat)
  {
    exists i {:trigger roots[i]} :: 0 <= i < |roots| && roots[i] == Ptr(Src(a))
  }

  ghost predicate FromRecorded(b: Before, recorded: seq<nat>, a: nat)
  {
    exists n, i {:trigger b.tenured[n].slots[i]} ::
      n in recorded && n in b.tenured && 0 <= i < |b.tenured[n].slots| && b.tenured[n].slots[i] == Ptr(Src(a))
  }

  /** Each root slot holds the image of what it held. */
  ghost predicate RootsDone(s: State, roots: seq<Value>, roots': seq<Value>)
  {
    |roots| == |roots'| &&
    forall i {:trigger roots'[i]} ::
      0 <= i < |roots'| ==> HasImage(s, roots[i]) && roots'[i] == Image(s, roots[i]) && !IsSrc(roots'[i])
  }

  lemma RootsOn(s: State, t: State, roots: seq<Value>, roots': seq<Value>, v: Value, v': Value)
    requires RootsDone(s, roots, roots') && Later(s, t, NO_ROOT, 0, 0) && HasImage(t, v) && v' == Image(t, v) &&
      !IsSrc(v')
    ensures RootsDone(t, roots + [v], roots' + [v'])
  {
    hide InHeap, Get;
    var a, a' := roots + [v], roots' + [v'];
    forall i | 0 <= i < |a'| ensures HasImage(t, a[i]) && a'[i] == Image(t, a[i]) && !IsSrc(a'[i]) {
      if i < |roots'| { assert a'[i] == roots'[i] && a[i] == roots[i]; }
    }
  }

  ghost function StartSet(b: Before, recorded: seq<nat>, roots: seq<Value>): set<nat>
  {
    set a | a in b.src && (FromRoot(roots, a) || FromRecorded(b, recorded, a))
  }

  lemma StartsAre(b: Before, recorded: seq<nat>, roots: seq<Value>)
    requires BeforeOk(b) && forall i {:trigger roots[i]} :: 0 <= i < |roots| ==> ValueOk(b, roots[i])
    ensures StartsFrom(b, recorded, roots, StartSet(b, recorded, roots))
  {
    var starts := StartSet(b, recorded, roots);
    forall i | 0 <= i < |roots| && IsSrc(roots[i])
      ensures roots[i].r.a in starts { assert FromRoot(roots, roots[i].r.a); }
    forall n, i | n in recorded && n in b.tenured && 0 <= i < |b.tenured[n].slots| && IsSrc(b.tenured[n].slots[i])
      ensures b.tenured[n].slots[i].r.a in starts {
      assert FromRecorded(b, recorded, b.tenured[n].slots[i].r.a);
      assert ObjOk(b, b.tenured[n]);
    }
  }

  /** Nothing evacuated yet. */
  lemma Unstarted(b: Before, s: State)
    requires BeforeOk(b) && s == State(b.tenured, map[], 0, map[], map[])
    ensures Valid(b, s)
  {
    assert Copied(b, s) == {};
    UsedNone(b, b.capacity);
    forall r | InHeap(s, r) ensures HasOrigin(b, s, r) && CopyOk(s, Was(b, s, r), Get(s, r)) {}
  }

  lemma {:induction false} UsedNone(b: Before, n: nat)
    ensures Used(b, {}, n) == 0
  {
    if n > 0 { UsedNone(b, n - 1); }
  }

  lemma StartReached(b: Before, starts: set<nat>, a: nat)
    requires a in starts
    ensures Reached(b, starts, a)
  {}

  lemma RootReached(b: Before, recorded: seq<nat>, roots: seq<Value>, starts: set<nat>, i: nat)
    requires StartsFrom(b, recorded, roots, starts) && i < |roots|
    ensures IsSrc(roots[i]) ==> Reached(b, starts, roots[i].r.a)
  {
    if IsSrc(roots[i]) { StartReached(b, starts, roots[i].r.a); }
  }

  lemma PassStart(b: Before, s: State, recorded: seq<nat>, rem: seq<nat>)
    requires Valid(b, s) && s.tenured == b.tenured && s.origin == map[] && s.dst == map[] && rem == []
    ensures PassDone(b, s, recorded[..0]) && PassRemembers(s, recorded[..0], rem)
  {
    hide Valid;
    assert recorded[..0] == [];
  }

  /** A recorded object is there, comes from itself, and leads only to reachable objects. */
  lemma OldReady(b: Before, s: State, visited: seq<nat>, n: nat, recorded: seq<nat>, roots: seq<Value>,
      starts: set<nat>)
    requires PassDone(b, s, visited) && n in b.tenured && n in recorded && StartsFrom(b, recorded, roots, starts)
    ensures InHeap(s, Old(n)) && HasOrigin(b, s, Old(n)) && Was(b, s, Old(n)) == b.tenured[n] &&
      SlotsReached(b, starts, Was(b, s, Old(n)))
  {
    assert Old(n) !in s.origin;
    forall i | 0 <= i < |b.tenured[n].slots| && IsSrc(b.tenured[n].slots[i])
      ensures Reached(b, starts, b.tenured[n].slots[i].r.a) {
      StartReached(b, starts, b.tenured[n].slots[i].r.a);
    }
  }

  lemma StillNew(b: Before, s: State, t: State, n: nat, hi: nat, visited: seq<nat>, rem: seq<nat>)
    requires Valid(b, s) && Valid(b, t) && n in b.tenured && InHeap(s, Old(n)) && InHeap(t, Old(n)) &&
      Done(t, Old(n)) && Later(s, t, Old(n), 0, hi)
    requires PassDone(b, s, visited) && PassRemembers(s, visited, rem)
    ensures n in rem ==> HasNew(t, Old(n))
  {
    if n in rem {
      Origins(b, t);
      assert Old(n) !in s.origin && Old(n) !in t.origin;
      var k :| 0 <= k < |rem| && rem[k] == n;
      assert Visited(s, visited, Old(n)) && HasNew(s, Old(n));
      assert Done(s, Old(n));
      DoneOnce(b, s, t, Old(n));
      var i :| 0 <= i < |Get(s, Old(n)).slots| && IsNew(Get(s, Old(n)).slots[i]);
      assert IsNew(Get(t, Old(n)).slots[i]);
    }
  }

  lemma AllDone(b: Before, s: State, recorded: seq<nat>, rem: seq<nat>)
    requires Valid(b, s) && PassDone(b, s, recorded) && PassRemembers(s, recorded, rem)
    requires forall n {:trigger n in b.tenured} :: n in b.tenured && n !in recorded ==> NoSource(b.tenured[n])
    ensures forall r {:trigger InHeap(s, r)} :: InHeap(s, r) ==> Done(s, r)
    ensures forall n {:trigger n in rem} :: n in rem <==> InHeap(s, Old(n)) && HasNew(s, Old(n))
  {
    Origins(b, s);
    assert BeforeOk(b);
    hide Valid;
    forall r | InHeap(s, r) ensures Done(s, r) {
      if !Visited(s, recorded, r) { assert Get(s, r) == b.tenured[r.n] && NoSource(b.tenured[r.n]); }
    }
    forall n ensures n in rem <==> InHeap(s, Old(n)) && HasNew(s, Old(n)) {
      if n in rem { var k :| 0 <= k < |rem| && rem[k] == n; }
      if InHeap(s, Old(n)) && !Visited(s, recorded, Old(n)) { UntouchedNotNew(b, s, n); }
    }
  }

  lemma UntouchedNotNew(b: Before, s: State, n: nat)
    requires BeforeOk(b) && n in b.tenured && InHeap(s, Old(n)) && Get(s, Old(n)) == b.tenured[n]
    ensures !HasNew(s, Old(n))
  {
    assert ObjOk(b, b.tenured[n]);
  }

  lemma WithinCapacity(b: Before, s: State)
    requires Valid(b, s)
    ensures s.top <= b.capacity
  {
    UsedFits(b, Copied(b, s), b.capacity, b.capacity);
  }

  /** Everything the roots and recorded objects lead to has been evacuated. */
  lemma Covers(b: Before, s: State, recorded: seq<nat>, roots: seq<Value>, roots': seq<Value>, starts: set<nat>)
    requires Valid(b, s) && StartsFrom(b, recorded, roots, starts)
    requires forall r {:trigger InHeap(s, r)} :: InHeap(s, r) ==> Done(s, r)
    requires |roots| == |roots'| && RootsDone(s, roots, roots')
    ensures Closed(b, starts, s.forward.Keys)
  {
    Origins(b, s);
    forall a | a in starts ensures a in s.forward {
      if FromRoot(roots, a) {
        var i :| 0 <= i < |roots| && roots[i] == Ptr(Src(a));
        var _ := roots'[i];
        assert HasImage(s, roots[i]);
      } else {
        var n, i :| n in recorded && n in b.tenured && 0 <= i < |b.tenured[n].slots| &&
          b.tenured[n].slots[i] == Ptr(Src(a));
        Led(b, s, Old(n), i);
      }
    }
    forall a, i | a in s.forward && a in b.src && 0 <= i < |b.src[a].slots| && IsSrc(b.src[a].slots[i])
      ensures b.src[a].slots[i].r.a in s.forward {
      assert s.forward[a] in s.origin && s.origin[s.forward[a]] == a;
      InPlace(b, s, a);
      Led(b, s, s.forward[a], i);
    }
  }

  lemma InPlace(b: Before, s: State, a: nat)
    requires Valid(b, s) && a in s.forward
    ensures InHeap(s, s.forward[a]) && HasOrigin(b, s, s.forward[a]) && a in b.src &&
      Was(b, s, s.forward[a]) == b.src[a]
  {
    var r := s.forward[a];
    assert r in s.origin && s.origin[r] == a;
    if r.Old? { assert r.n in s.tenured; } else { assert r.a in s.dst; }
  }

  lemma Led(b: Before, s: State, r: Ref, i: nat)
    requires Valid(b, s) && InHeap(s, r) && Done(s, r) && HasOrigin(b, s, r) && i < |Was(b, s, r).slots| &&
      IsSrc(Was(b, s, r).slots[i])
    ensures Was(b, s, r).slots[i].r.a in s.forward
  {
    SameCount(b, s, r);
    SlotKnown(b, s, r, i);
    assert !IsSrc(Get(s, r).slots[i]);
  }

  /** o is p with every pointer into the evacuated semispace replaced by where it leads now. */
  ghost predicate ImageOf(s: State, o: Obj, p: Obj)
  {
    && p.hash == o.hash && p.size == o.size && p.bytes == o.bytes && |p.slots| == |o.slots|
    && forall i {:trigger p.slots[i]} ::
      0 <= i < |o.slots| ==> HasImage(s, o.slots[i]) && p.slots[i] == Image(s, o.slots[i])
  }

  lemma FinishedImage(b: Before, s: State, r: Ref)
    requires Valid(b, s) && InHeap(s, r) && Done(s, r) && HasOrigin(b, s, r)
    ensures ImageOf(s, Was(b, s, r), Get(s, r))
  {
    SameCount(b, s, r);
    assert CopyOk(s, Was(b, s, r), Get(s, r));
    forall i | 0 <= i < |Was(b, s, r).slots|
      ensures HasImage(s, Was(b, s, r).slots[i]) && Get(s, r).slots[i] == Image(s, Was(b, s, r).slots[i]) {
      SlotKnown(b, s, r, i);
      assert !IsSrc(Get(s, r).slots[i]);
    }
  }

  /** After a scavenge: exactly the reachable objects of the evacuated semispace have a new
      place, no two the same one, each with its shape, hash and fields; old objects kept theirs;
      survivors of the previous scavenge are old now, the others in the destination. */
  lemma GraphKept(b: Before, s: State, starts: set<nat>, a: nat, c: nat)
    requires Valid(b, s) && OnlyReached(b, starts, s) && Closed(b, starts, s.forward.Keys)
    requires forall r {:trigger InHeap(s, r)} :: InHeap(s, r) ==> Done(s, r)
    ensures a in s.forward <==> Reached(b, starts, a)
    ensures a in s.forward ==> a in b.src && InHeap(s, s.forward[a]) && ImageOf(s, b.src[a], Get(s, s.forward[a]))
    ensures a in s.forward ==> (a < b.survivorEnd <==> s.forward[a].Old?)
    ensures a in s.forward && c in s.forward && s.forward[a] == s.forward[c] ==> a == c
    ensures a in b.tenured ==> InHeap(s, Old(a)) && ImageOf(s, b.tenured[a], Get(s, Old(a)))
    ensures a in s.forward ==> s.forward[a].Dst? || s.forward[a].n !in b.tenured
  {
    Origins(b, s);
    if Reached(b, starts, a) { assert Closed(b, starts, s.forward.Keys) ==> a in s.forward.Keys; }
    if a in s.forward {
      InPlace(b, s, a);
      FinishedImage(b, s, s.forward[a]);
    }
    if a in b.tenured { FinishedImage(b, s, Old(a)); }
  }
}
