/** A generational heap during a scavenge, as a value: old space, the semispace being
    evacuated, the destination semispace, and where evacuated objects have gone. Addresses
    and sizes are in allocation units. */
module ScavengeModel {

  datatype Ref = Old(n: nat) | Src(a: nat) | Dst(a: nat)

  datatype Value = Imm(v: int) | Ptr(r: Ref)

  /** slots[0] is the class, the rest the variables; bytes is the rest of the body. */
  datatype Obj = Obj(hash: int, size: nat, slots: seq<Value>, bytes: seq<int>)

  /** What does not change while a scavenge runs: old space as it was, the evacuated
      semispace, its survivor mark, and the size of a semispace. src need hold only the objects
      there that can be reached: the dead ones, whose pointers may lead nowhere, are not looked
      at and can be left out. */
  datatype Before = Before(tenured: map<nat, Obj>, src: map<nat, Obj>, survivorEnd: nat, capacity: nat)

  /** forward says where each evacuated object went, origin is its inverse. */
  datatype State = State(
    tenured: map<nat, Obj>, dst: map<nat, Obj>, top: nat,
    forward: map<nat, Ref>, origin: map<Ref, nat>)

  ghost predicate ValueOk(b: Before, v: Value)
  {
    v.Ptr? ==> match v.r { case Old(n) => n in b.tenured case Src(a) => a in b.src case Dst(_) => false }
  }

  ghost predicate ObjOk(b: Before, o: Obj)
  {
    o.size >= 1 && forall i {:trigger o.slots[i]} :: 0 <= i < |o.slots| ==> ValueOk(b, o.slots[i])
  }

  /** Before: pointers lead to objects, and the evacuated semispace's objects lie apart. */
  ghost predicate BeforeOk(b: Before)
  {
    && (forall n {:trigger b.tenured[n]} :: n in b.tenured ==> ObjOk(b, b.tenured[n]))
    && (forall a {:trigger b.src[a]} :: a in b.src ==> ObjOk(b, b.src[a]) && a + b.src[a].size <= b.capacity)
    && (forall a, c {:trigger b.src[a], b.src[c]} :: a in b.src && c in b.src && a < c ==> a + b.src[a].size <= c)
  }

  ghost predicate InHeap(s: State, r: Ref)
  {
    match r { case Old(n) => n in s.tenured case Dst(a) => a in s.dst case Src(_) => false }
  }

  ghost function Get(s: State, r: Ref): Obj
    requires InHeap(s, r)
  {
    match r { case Old(n) => s.tenured[n] case Dst(a) => s.dst[a] }
  }

  /** Where r comes from: the object it is a copy of, or itself before the scavenge. */
  ghost predicate HasOrigin(b: Before, s: State, r: Ref)
  {
    if r in s.origin then s.origin[r] in b.src else r.Old? && r.n in b.tenured
  }

  ghost function Was(b: Before, s: State, r: Ref): Obj
    requires HasOrigin(b, s, r)
  {
    if r in s.origin then b.src[s.origin[r]] else b.tenured[r.n]
  }

  /** The value a slot ends up with. */
  ghost predicate HasImage(s: State, v: Value)
  {
    v.Ptr? && v.r.Src? ==> v.r.a in s.forward
  }

  ghost function Image(s: State, v: Value): Value
    requires HasImage(s, v)
  {
    if v.Ptr? && v.r.Src? then Ptr(s.forward[v.r.a]) else v
  }

  predicate IsSrc(v: Value)
  {
    v.Ptr? && v.r.Src?
  }

  predicate IsNew(v: Value)
  {
    v.Ptr? && v.r.Dst?
  }

  /** A slot holds what it held, or the image of that. */
  ghost predicate SlotOk(s: State, was: Value, is_: Value)
  {
    is_ == was || (HasImage(s, was) && is_ == Image(s, was))
  }

  ghost predicate CopyOk(s: State, was: Obj, is_: Obj)
  {
    && is_.hash == was.hash && is_.size == was.size && is_.bytes == was.bytes && |is_.slots| == |was.slots|
    && forall i {:trigger is_.slots[i]} {:trigger was.slots[i]} ::
      0 <= i < |was.slots| ==> SlotOk(s, was.slots[i], is_.slots[i])
  }

  /** No slot of r points into the abandoned semispace. */
  ghost predicate Done(s: State, r: Ref)
    requires InHeap(s, r)
  {
    forall i {:trigger Get(s, r).slots[i]} :: 0 <= i < |Get(s, r).slots| ==> !IsSrc(Get(s, r).slots[i])
  }

  /** Units used by the objects of ks that lie below n. */
  ghost function Used(b: Before, ks: set<nat>, n: nat): nat
  {
    if n == 0 then 0
    else Used(b, ks, n - 1) + if n - 1 in ks && n - 1 in b.src then b.src[n - 1].size else 0
  }

  ghost function Copied(b: Before, s: State): set<nat>
  {
    set a | a in s.forward && b.survivorEnd <= a
  }

  ghost predicate Forwards(b: Before, s: State)
  {
    && (forall a {:trigger s.forward[a]} ::
      a in s.forward ==> a in b.src && s.forward[a] in s.origin && s.origin[s.forward[a]] == a)
    && (forall r {:trigger s.origin[r]} :: r in s.origin ==> s.origin[r] in s.forward && s.forward[s.origin[r]] == r)
    && (forall r {:trigger s.origin[r]} ::
      r in s.origin ==> if s.origin[r] < b.survivorEnd then r.Old? && r.n !in b.tenured else r.Dst?)
  }

  ghost predicate TenuredOk(b: Before, s: State)
  {
    forall n {:trigger n in s.tenured} :: n in s.tenured <==> n in b.tenured || Old(n) in s.origin
  }

  ghost predicate DstOk(s: State)
  {
    && (forall a {:trigger a in s.dst} :: a in s.dst <==> Dst(a) in s.origin)
    && (forall a {:trigger s.dst[a]} :: a in s.dst ==> s.dst[a].size >= 1 && a + s.dst[a].size <= s.top)
    && (forall a, c {:trigger s.dst[a], s.dst[c]} :: a in s.dst && c in s.dst && a < c ==> a + s.dst[a].size <= c)
  }

  ghost predicate Spaces(b: Before, s: State)
  {
    TenuredOk(b, s) && DstOk(s) && s.top == Used(b, Copied(b, s), b.capacity)
  }

  ghost predicate Copies(b: Before, s: State)
  {
    forall r {:trigger InHeap(s, r)} :: InHeap(s, r) ==> HasOrigin(b, s, r) && CopyOk(s, Was(b, s, r), Get(s, r))
  }

  ghost predicate Valid(b: Before, s: State)
  {
    BeforeOk(b) && Forwards(b, s) && Spaces(b, s) && Copies(b, s)
  }

  // ----- room in the destination -----

  lemma {:induction false} UsedFits(b: Before, ks: set<nat>, n: nat, limit: nat)
    requires BeforeOk(b) && forall a {:trigger b.src[a]} :: a in b.src && a < n ==> a + b.src[a].size <= limit
    ensures Used(b, ks, n) <= limit
    decreases n
  {
    if n > 0 {
      if n - 1 in ks && n - 1 in b.src {
        UsedFits(b, ks, n - 1, n - 1);
      } else {
        UsedFits(b, ks, n - 1, limit);
      }
    }
  }

  lemma {:induction false} UsedMore(b: Before, ks: set<nat>, a: nat, n: nat)
    requires a in b.src && a !in ks
    ensures Used(b, ks + {a}, n) == Used(b, ks, n) + if a < n then b.src[a].size else 0
    decreases n
  {
    if n > 0 { UsedMore(b, ks, a, n - 1); }
  }

  /** An object not yet evacuated still fits the destination. */
  lemma RoomLeft(b: Before, s: State, a: nat)
    requires Valid(b, s) && a in b.src && a !in s.forward && b.survivorEnd <= a
    ensures s.top + b.src[a].size <= b.capacity
    ensures Used(b, Copied(b, s) + {a}, b.capacity) == s.top + b.src[a].size
  {
    UsedMore(b, Copied(b, s), a, b.capacity);
    UsedFits(b, Copied(b, s) + {a}, b.capacity, b.capacity);
  }

  // ----- the two changes a scavenge makes -----

  /** Evacuate the object at a to r. */
  ghost function Evacuate(b: Before, s: State, a: nat, r: Ref): State
    requires a in b.src
  {
    var o := b.src[a];
    State(
      if r.Old? then s.tenured[r.n := o] else s.tenured,
      if r.Dst? then s.dst[r.a := o] else s.dst,
      if r.Dst? then s.top + o.size else s.top,
      s.forward[a := r], s.origin[r := a])
  }

  function WithSlot(o: Obj, i: nat, v: Value): Obj
    requires i < |o.slots|
  {
    o.(slots := o.slots[i := v])
  }

  ghost function Store(s: State, r: Ref, i: nat, v: Value): State
    requires InHeap(s, r) && i < |Get(s, r).slots|
  {
    if r.Old? then s.(tenured := s.tenured[r.n := WithSlot(s.tenured[r.n], i, v)])
    else s.(dst := s.dst[r.a := WithSlot(s.dst[r.a], i, v)])
  }

  /** A place for a's copy, as promotion or copying picks it. */
  ghost predicate FreshFor(b: Before, s: State, a: nat, r: Ref)
  {
    if a < b.survivorEnd then r.Old? && r.n !in s.tenured else r == Dst(s.top)
  }

  lemma EvacuateGets(b: Before, s: State, a: nat, r: Ref)
    requires Valid(b, s) && a in b.src && a !in s.forward && FreshFor(b, s, a, r)
    ensures r !in s.origin && !InHeap(s, r)
    ensures var t := Evacuate(b, s, a, r); InHeap(t, r) && Get(t, r) == b.src[a]
    ensures var t := Evacuate(b, s, a, r); forall q {:trigger InHeap(t, q)} {:trigger InHeap(s, q)} ::
      InHeap(t, q) <==> InHeap(s, q) || q == r
    ensures var t := Evacuate(b, s, a, r); forall q {:trigger Get(t, q)} {:trigger Get(s, q)} ::
      InHeap(s, q) ==> InHeap(t, q) && Get(t, q) == Get(s, q)
  {
    hide Used, Copies, BeforeOk, Forwards;
    assert r.Old? ==> (r.n in s.tenured <==> r.n in b.tenured || Old(r.n) in s.origin);
    assert r.Dst? ==> (r.a in s.dst <==> Dst(r.a) in s.origin);
  }

  lemma EvacuateForwards(b: Before, s: State, a: nat, r: Ref)
    requires Valid(b, s) && a in b.src && a !in s.forward && FreshFor(b, s, a, r) && r !in s.origin
    ensures Forwards(b, Evacuate(b, s, a, r))
  {
    hide Copies, BeforeOk, Used;
  }

  lemma EvacuateSpaces(b: Before, s: State, a: nat, r: Ref)
    requires Valid(b, s) && a in b.src && a !in s.forward && FreshFor(b, s, a, r) && r !in s.origin
    ensures Spaces(b, Evacuate(b, s, a, r))
  {
    hide Used, Copies, Forwards, Copied;
    var t := Evacuate(b, s, a, r);
    assert b.src[a].size >= 1;
    hide BeforeOk;
    MoreCopied(b, s, a, r);
    if r.Dst? { RoomLeft(b, s, a); }
    assert TenuredOk(b, t) by { hide DstOk; }
    assert DstOk(t) by { hide TenuredOk; }
  }

  lemma MoreCopied(b: Before, s: State, a: nat, r: Ref)
    requires a in b.src && FreshFor(b, s, a, r)
    ensures Copied(b, Evacuate(b, s, a, r)) == if r.Dst? then Copied(b, s) + {a} else Copied(b, s)
  {}

  lemma EvacuatedFrom(b: Before, s: State, a: nat, r: Ref, q: Ref)
    requires a in b.src && q != r && HasOrigin(b, s, q)
    ensures HasOrigin(b, Evacuate(b, s, a, r), q) && Was(b, Evacuate(b, s, a, r), q) == Was(b, s, q)
  {
  }

  lemma CopiedOnce(b: Before, s: State, q: Ref)
    requires Copies(b, s) && InHeap(s, q)
    ensures HasOrigin(b, s, q) && CopyOk(s, Was(b, s, q), Get(s, q))
  {
  }

  lemma EvacuateCopies(b: Before, s: State, a: nat, r: Ref)
    requires Valid(b, s) && a in b.src && a !in s.forward && FreshFor(b, s, a, r)
    ensures Copies(b, Evacuate(b, s, a, r))
  {
    hide Forwards, Spaces, BeforeOk, InHeap, CopyOk, Get, HasOrigin, Was, FreshFor;
    var t := Evacuate(b, s, a, r);
    EvacuateGets(b, s, a, r);
    forall q | InHeap(t, q) ensures HasOrigin(b, t, q) && CopyOk(t, Was(b, t, q), Get(t, q)) {
      if q != r {
        CopiedOnce(b, s, q);
        EvacuatedFrom(b, s, a, r, q);
        SlotsStillOk(s, t, Was(b, s, q), Get(s, q));
      } else {
        EvacuatedTo(b, s, a, r);
        Unchanged(t, b.src[a]);
      }
    }
  }

  lemma EvacuatedTo(b: Before, s: State, a: nat, r: Ref)
    requires a in b.src
    ensures HasOrigin(b, Evacuate(b, s, a, r), r) && Was(b, Evacuate(b, s, a, r), r) == b.src[a]
  {
  }

  lemma Unchanged(t: State, o: Obj)
    ensures CopyOk(t, o, o)
  {}

  lemma EvacuateKeeps(b: Before, s: State, a: nat, r: Ref)
    requires Valid(b, s) && a in b.src && a !in s.forward && FreshFor(b, s, a, r)
    ensures Valid(b, Evacuate(b, s, a, r))
  {
    hide Forwards, Spaces, Copies, BeforeOk;
    EvacuateGets(b, s, a, r);
    EvacuateForwards(b, s, a, r);
    EvacuateSpaces(b, s, a, r);
    EvacuateCopies(b, s, a, r);
  }

  lemma SlotsStillOk(s: State, t: State, was: Obj, is_: Obj)
    requires CopyOk(s, was, is_) && forall a {:trigger s.forward[a]} ::
      a in s.forward ==> a in t.forward && t.forward[a] == s.forward[a]
    ensures CopyOk(t, was, is_)
  {
    forall i | 0 <= i < |was.slots|
      ensures SlotOk(t, was.slots[i], is_.slots[i]) { assert SlotOk(s, was.slots[i], is_.slots[i]); }
  }

  lemma StoreGets(s: State, r: Ref, i: nat, v: Value)
    requires InHeap(s, r) && i < |Get(s, r).slots|
    ensures var t := Store(s, r, i, v); InHeap(t, r) && Get(t, r) == WithSlot(Get(s, r), i, v)
    ensures var t := Store(s, r, i, v); forall q {:trigger InHeap(t, q)} {:trigger InHeap(s, q)} ::
      InHeap(t, q) <==> InHeap(s, q)
    ensures var t := Store(s, r, i, v); forall q {:trigger Get(t, q)} {:trigger Get(s, q)} ::
      InHeap(s, q) && q != r ==> InHeap(t, q) && Get(t, q) == Get(s, q)
  {}

  lemma StoreKeeps(b: Before, s: State, r: Ref, i: nat, v: Value)
    requires Valid(b, s) && InHeap(s, r) && i < |Get(s, r).slots|
    requires HasOrigin(b, s, r) && i < |Was(b, s, r).slots| && HasImage(s, Was(b, s, r).slots[i]) &&
      v == Image(s, Was(b, s, r).slots[i])
    ensures Valid(b, Store(s, r, i, v))
  {
    hide Used, InHeap;
    var t := Store(s, r, i, v);
    StoreGets(s, r, i, v);
    StoreSpaces(b, s, r, i, v);
    hide Spaces, BeforeOk, Forwards, Store, Get, CopyOk;
    forall q | InHeap(t, q) ensures HasOrigin(b, t, q) && CopyOk(t, Was(b, t, q), Get(t, q)) {
      CopiedOnce(b, s, q);
      SlotsStillOk(s, t, Was(b, s, q), Get(s, q));
      if q == r { SlotStored(t, Was(b, s, q), Get(s, q), i, v); }
    }
  }

  lemma SlotStored(s: State, was: Obj, is_: Obj, i: nat, v: Value)
    requires CopyOk(s, was, is_) && i < |is_.slots| && i < |was.slots| && HasImage(s, was.slots[i]) &&
      v == Image(s, was.slots[i])
    ensures CopyOk(s, was, WithSlot(is_, i, v))
  {
    forall k | 0 <= k < |was.slots| ensures SlotOk(s, was.slots[k], WithSlot(is_, i, v).slots[k]) {
      assert SlotOk(s, was.slots[k], is_.slots[k]);
    }
  }

  lemma StoreSpaces(b: Before, s: State, r: Ref, i: nat, v: Value)
    requires Valid(b, s) && InHeap(s, r) && i < |Get(s, r).slots|
    ensures var t := Store(s, r, i, v); Spaces(b, t) && Forwards(b, t) && t.origin == s.origin && t.forward == s.forward
  {
    hide Used, Copies, BeforeOk;
    var t := Store(s, r, i, v);
    assert Copied(b, t) == Copied(b, s);
  }

  // ----- progress -----

  /** t is s with more evacuated: what existed is the same, but for the slots of r from lo
      to hi. */
  ghost predicate Later(s: State, t: State, r: Ref, lo: nat, hi: nat)
  {
    && (forall a {:trigger s.forward[a]} :: a in s.forward ==> a in t.forward && t.forward[a] == s.forward[a])
    && (forall q {:trigger s.origin[q]} :: q in s.origin ==> q in t.origin && t.origin[q] == s.origin[q])
    && (forall q {:trigger InHeap(s, q)} :: InHeap(s, q) ==> InHeap(t, q) && (q != r ==> Get(t, q) == Get(s, q)))
    && (InHeap(s, r) ==> SameOutside(Get(s, r), Get(t, r), lo, hi))
    && (forall q {:trigger InHeap(t, q)} :: InHeap(t, q) && !InHeap(s, q) ==> q in t.origin && q !in s.origin)
  }

  ghost predicate SameOutside(o: Obj, p: Obj, lo: nat, hi: nat)
  {
    && p.hash == o.hash && p.size == o.size && p.bytes == o.bytes && |p.slots| == |o.slots|
    && forall i {:trigger p.slots[i]} :: 0 <= i < |o.slots| && !(lo <= i < hi) ==> p.slots[i] == o.slots[i]
  }

  lemma LaterTrans(s: State, t: State, u: State, r: Ref, lo: nat, mid: nat, hi: nat)
    requires Later(s, t, r, lo, mid) && Later(t, u, r, mid, hi) && lo <= mid <= hi
    ensures Later(s, u, r, lo, hi)
  {
    forall q | InHeap(s, q) ensures InHeap(u, q) && (q != r ==> Get(u, q) == Get(s, q)) { assert InHeap(t, q); }
    forall q | InHeap(u, q) && !InHeap(s, q) ensures q in u.origin && q !in s.origin {
      if InHeap(t, q) { assert q in t.origin; }
    }
    if InHeap(s, r) { assert InHeap(t, r); }
  }

  /** Objects that came to be between s and t are finished. */
  ghost predicate NewDone(s: State, t: State)
  {
    forall q {:trigger InHeap(t, q)} :: InHeap(t, q) && !InHeap(s, q) ==> Done(t, q)
  }

  // ----- reachability -----

  /** ks holds the starts and everything in the semispace that its members point to. */
  ghost predicate Closed(b: Before, starts: set<nat>, ks: set<nat>)
  {
    && starts <= ks
    && forall a, i {:trigger b.src[a].slots[i]} ::
      a in ks && a in b.src && 0 <= i < |b.src[a].slots| && IsSrc(b.src[a].slots[i]) ==> b.src[a].slots[i].r.a in ks
  }

  /** a is reachable: every closed set holds it. */
  ghost predicate Reached(b: Before, starts: set<nat>, a: nat)
  {
    forall ks: set<nat> {:trigger Closed(b, starts, ks)} :: Closed(b, starts, ks) ==> a in ks
  }

  ghost predicate OnlyReached(b: Before, starts: set<nat>, s: State)
  {
    forall a {:trigger a in s.forward} :: a in s.forward ==> Reached(b, starts, a)
  }

  lemma StoreReached(b: Before, starts: set<nat>, s: State, r: Ref, i: nat, v: Value)
    requires OnlyReached(b, starts, s) && InHeap(s, r) && i < |Get(s, r).slots|
    ensures OnlyReached(b, starts, Store(s, r, i, v))
  {
    hide Reached;
  }

  ghost predicate SlotsReached(b: Before, starts: set<nat>, o: Obj)
  {
    forall i {:trigger o.slots[i]} :: 0 <= i < |o.slots| && IsSrc(o.slots[i]) ==> Reached(b, starts, o.slots[i].r.a)
  }

  lemma ReachedOn(b: Before, starts: set<nat>, a: nat)
    requires Reached(b, starts, a) && a in b.src
    ensures SlotsReached(b, starts, b.src[a])
  {
    forall i | 0 <= i < |b.src[a].slots| && IsSrc(b.src[a].slots[i]) ensures Reached(b, starts, b.src[a].slots[i].r.a) {
      forall ks: set<nat> | Closed(b, starts, ks) ensures b.src[a].slots[i].r.a in ks { assert a in ks; }
    }
  }
}
