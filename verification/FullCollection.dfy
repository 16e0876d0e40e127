/** Mark and sweep together. Old objects go by their addresses. What is reachable stays in place
    and is left unmarked, so that the next mark phase can start; except that the sweep marks, by
    flipping the bit, every dead object it keeps for its finalizer, and the next mark phase takes
    such an object for one whose references it has followed. */
module FullCollection {
  import opened FreeList
  import opened Marking
  import opened Sweeping

  /** An object of the kind starts at a. */
  ghost predicate On(pages: seq<Page>, kind: Cell -> bool, a: Addr)
  {
    exists i {:trigger pages[i]} :: 0 <= i < |pages| && a in Objects(pages[i].start, pages[i].cells, kind)
  }

  /** The pages hold the old objects of the graph, with these marks. */
  ghost predicate Carries(g: Graph, marks: set<Oid>, pages: seq<Page>)
  {
    && (forall a {:trigger On(pages, IsMarked, a)} :: On(pages, IsMarked, a) <==> a in g && !g[a].young && a in marks)
    && (forall a {:trigger On(pages, IsClear, a)} :: On(pages, IsClear, a) <==> a in g && !g[a].young && a !in marks)
  }

  lemma {:induction false} KindOf(start: Addr, cells: seq<Cell>, kind: Cell -> bool, a: Addr) returns (j: nat)
    requires a in Objects(start, cells, kind)
    ensures j < |cells| && cells[j].Object? && kind(cells[j])
  {
    var n := |cells| - 1;
    if a in Objects(start, cells[..n], kind) && !(cells[n].Object? && kind(cells[n])) {
      j := KindOf(start, cells[..n], kind, a);
    } else {
      j := n;
    }
  }

  lemma Lives(page: Page, kind: Cell -> bool, a: Addr)
    requires a in Objects(page.start, page.cells, kind) && (kind == IsMarked || kind == IsDying)
    ensures HasLive(page.cells)
  {
    var j := KindOf(page.start, page.cells, kind, a);
    assert !Dead(page.cells[j]);
  }

  /** What the sweep makes of the objects on all pages. */
  lemma SweptObjects(pages: seq<Page>, a: Addr)
    ensures On(Kept(pages), IsClear, a) <==> On(pages, IsMarked, a)
    ensures On(Kept(pages), IsMarked, a) <==> On(pages, IsDying, a)
  {
    hide Objects, HasLive, Swept, Kept;
    if i :| 0 <= i < |pages| && a in Objects(pages[i].start, pages[i].cells, IsMarked)
      { StaysOn(pages, i, IsMarked, IsClear, a); }
    if i :| 0 <= i < |pages| && a in Objects(pages[i].start, pages[i].cells, IsDying)
      { StaysOn(pages, i, IsDying, IsMarked, a); }
    var kept := Kept(pages);
    if k: nat :| k < |kept| && a in Objects(kept[k].start, kept[k].cells, IsClear) { CameFrom(pages, k, a); }
    if k: nat :| k < |kept| && a in Objects(kept[k].start, kept[k].cells, IsMarked) { CameFrom(pages, k, a); }
  }

  lemma StaysOn(pages: seq<Page>, i: nat, kind: Cell -> bool, after: Cell -> bool, a: Addr)
    requires i < |pages| && a in Objects(pages[i].start, pages[i].cells, kind)
    requires (kind == IsMarked && after == IsClear) || (kind == IsDying && after == IsMarked)
    ensures On(Kept(pages), after, a)
  {
    Lives(pages[i], kind, a);
    LiveKept(pages, i);
    SweptPage(pages[i].start, pages[i].cells);
    hide Objects, HasLive, Swept, Kept;
    var kept := Kept(pages);
    var k :| 0 <= k < |kept| && kept[k] == Page(pages[i].start, Swept(pages[i].cells));
    assert a in Objects(kept[k].start, kept[k].cells, after);
  }

  lemma CameFrom(pages: seq<Page>, k: nat, a: Addr)
    requires k < |Kept(pages)|
    ensures a in Objects(Kept(pages)[k].start, Kept(pages)[k].cells, IsClear) ==> On(pages, IsMarked, a)
    ensures a in Objects(Kept(pages)[k].start, Kept(pages)[k].cells, IsMarked) ==> On(pages, IsDying, a)
  {
    KeptSwept(pages, k);
    hide Objects, Swept, Kept;
    var i :| 0 <= i < |pages| && Kept(pages)[k].start == pages[i].start &&
      SameLive(pages[i].start, pages[i].cells, Kept(pages)[k].cells);
  }

  /** After marking from clear marks and sweeping: an old object is in place and unmarked exactly
      when it is reachable, and the objects left marked are exactly the dead ones kept for their
      finalizers. */
  lemma CollectedOld(g: Graph, roots: seq<Oid>, marks: set<Oid>, pages: seq<Page>, a: Addr)
    requires Carries(g, marks, pages) && forall o {:trigger Reachable(g, roots, o)} ::
      o in marks <==> Reachable(g, roots, o)
    ensures On(Kept(pages), IsClear, a) <==> a in g && !g[a].young && Reachable(g, roots, a)
    ensures On(Kept(pages), IsMarked, a) <==> On(pages, IsDying, a)
    ensures On(pages, IsDying, a) ==> a in g && !g[a].young && !Reachable(g, roots, a)
  {
    hide On, Reachable, Kept;
    SweptObjects(pages, a);
    assert On(pages, IsMarked, a) <==> a in g && !g[a].young && a in marks;
    if On(pages, IsDying, a) { DyingIsClear(pages, a); }
  }

  lemma DyingIsClear(pages: seq<Page>, a: Addr)
    requires On(pages, IsDying, a)
    ensures On(pages, IsClear, a)
  {
    var i :| 0 <= i < |pages| && a in Objects(pages[i].start, pages[i].cells, IsDying);
    ClearToo(pages[i].start, pages[i].cells, a);
  }

  lemma {:induction false} ClearToo(start: Addr, cells: seq<Cell>, a: Addr)
    requires a in Objects(start, cells, IsDying)
    ensures a in Objects(start, cells, IsClear)
  {
    var n := |cells| - 1;
    if a in Objects(start, cells[..n], IsDying) { ClearToo(start, cells[..n], a); }
  }

  /** So the next mark phase finds no mark in old space exactly when no dead object was kept for
      its finalizer. */
  lemma NextStartsClear(pages: seq<Page>)
    ensures (forall a {:trigger On(Kept(pages), IsMarked, a)} :: !On(Kept(pages), IsMarked, a)) <==>
      (forall a {:trigger On(pages, IsDying, a)} :: !On(pages, IsDying, a))
  {
    hide On, Kept;
    if forall a {:trigger On(pages, IsDying, a)} :: !On(pages, IsDying, a) {
      forall a ensures !On(Kept(pages), IsMarked, a) { SweptObjects(pages, a); }
    } else {
      var a :| On(pages, IsDying, a);
      SweptObjects(pages, a);
    }
  }

  /** With marks left over, what the collection keeps in place of what it should: a reachable old
      object is lost exactly when it was not marked before and no chain of unmarked objects leads
      to it. */
  lemma LostIff(g: Graph, roots: seq<Oid>, stale: set<Oid>, marks: set<Oid>, pages: seq<Page>, a: Addr)
    requires Carries(g, marks, pages) && a in g && !g[a].young && Reachable(g, roots, a) && !On(pages, IsDying, a)
    requires forall o {:trigger Found(g, roots, stale, o)} :: o in marks <==> o in stale || Found(g, roots, stale, o)
    ensures !On(Kept(pages), IsClear, a) && !On(Kept(pages), IsMarked, a) <==> a !in stale && !Found(g, roots, stale, a)
  {
    hide On, Reachable, Found, Kept;
    SweptObjects(pages, a);
    assert On(pages, IsMarked, a) <==> a in g && !g[a].young && a in marks;
    assert a in marks <==> a in stale || Found(g, roots, stale, a);
  }

  // ----- what kept objects refer to -----

  ghost predicate Stays(pages: seq<Page>, a: Addr)
  {
    On(Kept(pages), IsClear, a) || On(Kept(pages), IsMarked, a)
  }

  ghost predicate RefersTo(g: Graph, a: Oid, p: Oid)
  {
    PointsTo(g, a, p) && !Young(g, p)
  }

  ghost predicate KeptClosed(g: Graph, pages: seq<Page>)
  {
    forall a, p {:trigger RefersTo(g, a, p)} :: Stays(pages, a) && RefersTo(g, a, p) ==> Stays(pages, p)
  }

  /** Before the sweep: what a dead object to be finalized refers to is reachable, or to be
      finalized too. */
  ghost predicate DyingClosed(g: Graph, roots: seq<Oid>, pages: seq<Page>)
  {
    forall a, p {:trigger RefersTo(g, a, p)} ::
      On(pages, IsDying, a) && RefersTo(g, a, p) ==> Reachable(g, roots, p) || On(pages, IsDying, p)
  }

  lemma StaysIff(g: Graph, roots: seq<Oid>, marks: set<Oid>, pages: seq<Page>, a: Addr)
    requires Carries(g, marks, pages) && forall o {:trigger Reachable(g, roots, o)} ::
      o in marks <==> Reachable(g, roots, o)
    ensures Stays(pages, a) <==> (a in g && !g[a].young && Reachable(g, roots, a)) || On(pages, IsDying, a)
  {
    hide On, Reachable, Kept, Carries;
    CollectedOld(g, roots, marks, pages, a);
  }

  lemma ReachableOn(g: Graph, roots: seq<Oid>, a: Oid, p: Oid)
    requires Reachable(g, roots, a) && PointsTo(g, a, p)
    ensures Reachable(g, roots, p)
  {
    hide Reachable, Found, PointsTo;
    FoundIsReachable(g, roots, a);
    StepFound(g, roots, {}, a, p);
    FoundIsReachable(g, roots, p);
  }

  lemma OldInGraph(g: Graph, a: Oid, p: Oid)
    requires Closed(g) && RefersTo(g, a, p)
    ensures PointsTo(g, a, p) && p in g && !g[p].young
  {
    if p != g[a].class_ {
      var i :| 0 <= i < |g[a].vars| && g[a].vars[i] == Ptr(p);
    }
  }

  /** After a collection the kept old objects refer only to kept ones exactly if what the dead
      ones to be finalized refer to was reachable or to be finalized too. */
  lemma KeptClosedIff(g: Graph, roots: seq<Oid>, marks: set<Oid>, pages: seq<Page>)
    requires Closed(g) && Carries(g, marks, pages) && forall o {:trigger Reachable(g, roots, o)} ::
      o in marks <==> Reachable(g, roots, o)
    ensures KeptClosed(g, pages) <==> DyingClosed(g, roots, pages)
  {
    hide On, Reachable, Kept, Closed, PointsTo, Stays, RefersTo, Carries;
    forall a, p | RefersTo(g, a, p)
      ensures (Stays(pages, a) ==> Stays(pages, p)) <==>
        (On(pages, IsDying, a) ==> Reachable(g, roots, p) || On(pages, IsDying, p)) {
      OldInGraph(g, a, p);
      StaysIff(g, roots, marks, pages, a);
      StaysIff(g, roots, marks, pages, p);
      if Reachable(g, roots, a) { ReachableOn(g, roots, a, p); }
    }
  }

  // ----- a finalized object hides what it refers to -----

  const DEAD: Addr := 16
  const CHILD: Addr := 48
  const CLASS: Addr := 80

  /** The first collection finds one dead object, with a finalizer to run. */
  const FIRST := [Page(DEAD, [Object(32, false, true)])]

  /** The finalizer makes the object reachable again and stores a new one in it. */
  const REVIVED: Graph := map[DEAD := Obj(CLASS, [Ptr(CHILD)], false), CHILD := Obj(CLASS, [], false), CLASS :=
    Obj(CLASS, [], false)]
  const ROOTS: seq<Oid> := [DEAD, CLASS]

  /** The second collection's pages, when its marking is over. */
  const SECOND := [Page(DEAD, [Object(32, true, false), Object(32, false, false), Object(32, true, false)])]

  lemma OneCell(start: Addr, c: Cell)
    ensures Swept([c]) == Sweep1([], c)
    ensures c.Object? && !c.marked && c.finalizes ==>
      start in Objects(start, [c], IsDying) && Kept([Page(start, [c])]) == [Page(start, Sweep1([], c))]
  {
    assert [c][..0] == [] && Swept([]) == [] && Total([]) == 0;
    var pages := [Page(start, [c])];
    assert pages[..0] == [] && Kept([]) == [];
    assert pages[0].cells[0] == c;
  }

  lemma FirstLeavesMark()
    ensures Kept(FIRST) == [Page(DEAD, [Object(32, true, false)])] && On(FIRST, IsDying, DEAD) &&
      On(Kept(FIRST), IsMarked, DEAD)
  {
    hide Kept, Objects, Swept;
    var c := Object(32, false, true);
    OneCell(DEAD, c);
    assert FIRST == [Page(DEAD, [c])] && Sweep1([], c) == [Object(32, true, false)];
    assert DEAD in Objects(FIRST[0].start, FIRST[0].cells, IsDying);
    SweptObjects(FIRST, DEAD);
  }

  lemma ChildNotFound()
    ensures Reachable(REVIVED, ROOTS, CHILD) && !Found(REVIVED, ROOTS, {DEAD}, CHILD)
  {
    var path := [DEAD, CHILD];
    assert Ptr(CHILD) in REVIVED[DEAD].vars;
    assert IsPath(REVIVED, path);
    if Found(REVIVED, ROOTS, {DEAD}, CHILD) {
      FoundIn(REVIVED, ROOTS, {DEAD}, {DEAD, CLASS}, CHILD);
    }
  }

  /** The second mark phase, past the mark left over, marks the class and nothing else. */
  lemma MarksFound()
    ensures forall o {:trigger Found(REVIVED, ROOTS, {DEAD}, o)} ::
      o in {DEAD, CLASS} <==> o == DEAD || Found(REVIVED, ROOTS, {DEAD}, o)
  {
    RootFound(REVIVED, ROOTS, {DEAD}, CLASS);
    hide Found;
    forall o | Found(REVIVED, ROOTS, {DEAD}, o) ensures o in {DEAD, CLASS} {
      FoundIn(REVIVED, ROOTS, {DEAD}, {DEAD, CLASS}, o);
    }
  }

  lemma OnOne(start: Addr, cells: seq<Cell>, kind: Cell -> bool, a: Addr)
    ensures On([Page(start, cells)], kind, a) <==> a in Objects(start, cells, kind)
  {
    hide Objects;
    var pages := [Page(start, cells)];
    assert pages[0].start == start && pages[0].cells == cells;
  }

  lemma MoreIn(start: Addr, cells: seq<Cell>, c: Cell, kind: Cell -> bool, a: Addr)
    requires c.Object?
    ensures Total(cells + [c]) == Total(cells) + c.bytes
    ensures a in Objects(start, cells + [c], kind) <==>
      a in Objects(start, cells, kind) || (a == start + Total(cells) && kind(c))
  {
    hide Objects, Holes, Total;
    Snoc(start, cells, c, kind);
  }

  /** A page with three objects of 32 bytes. */
  lemma ThreeObjects(x: Cell, y: Cell, z: Cell, kind: Cell -> bool)
    requires x.Object? && y.Object? && z.Object? && x.bytes == y.bytes == z.bytes == 32
    ensures forall a {:trigger On([Page(DEAD, [x, y, z])], kind, a)} :: On([Page(DEAD, [x, y, z])], kind, a) <==>
      (a == DEAD && kind(x)) || (a == CHILD && kind(y)) || (a == CLASS && kind(z))
  {
    hide Objects, Holes, Total, On;
    assert [x, y, z] == [x, y] + [z] && [x, y] == [x] + [y] && [x] == [] + [x];
    NoObjects(DEAD, kind);
    forall a ensures On([Page(DEAD, [x, y, z])], kind, a) <==>
      (a == DEAD && kind(x)) || (a == CHILD && kind(y)) || (a == CLASS && kind(z)) {
      OnOne(DEAD, [x, y, z], kind, a);
      MoreIn(DEAD, [], x, kind, a);
      MoreIn(DEAD, [x], y, kind, a);
      MoreIn(DEAD, [x, y], z, kind, a);
    }
  }

  lemma NoObjects(start: Addr, kind: Cell -> bool)
    ensures Objects(start, [], kind) == map[] && Total([]) == 0
  {
  }

  lemma SecondCarries()
    ensures Carries(REVIVED, {DEAD, CLASS}, SECOND) && !On(SECOND, IsDying, CHILD)
  {
    hide On;
    var marked, clear := Object(32, true, false), Object(32, false, false);
    ThreeObjects(marked, clear, marked, IsMarked);
    ThreeObjects(marked, clear, marked, IsClear);
    ThreeObjects(marked, clear, marked, IsDying);
  }

  /** The object kept for its finalizer is left marked; made reachable, it is passed over by the
      next mark phase, which does not find the object it now refers to; and the sweep frees that
      one, reachable as it is. */
  lemma FinalizedHidesChild()
    ensures On(FIRST, IsDying, DEAD) && On(Kept(FIRST), IsMarked, DEAD)
    ensures Reachable(REVIVED, ROOTS, CHILD) && !Found(REVIVED, ROOTS, {DEAD}, CHILD)
    ensures forall o {:trigger Found(REVIVED, ROOTS, {DEAD}, o)} ::
      o in {DEAD, CLASS} <==> o == DEAD || Found(REVIVED, ROOTS, {DEAD}, o)
    ensures Carries(REVIVED, {DEAD, CLASS}, SECOND) && !On(SECOND, IsDying, CHILD)
    ensures !On(Kept(SECOND), IsClear, CHILD) && !On(Kept(SECOND), IsMarked, CHILD)
  {
    hide Kept, On, Swept, Reachable, Found, Objects, Carries;
    FirstLeavesMark();
    ChildNotFound();
    MarksFound();
    SecondCarries();
    LostIff(REVIVED, ROOTS, {DEAD}, {DEAD, CLASS}, SECOND, CHILD);
  }

  // ----- a finalized object outlives what it refers to -----

  const PARENT_PAGES := [Page(DEAD, [Object(32, false, true), Object(32, false, false), Object(32, true, false)])]

  lemma ParentUnreachable(o: Oid)
    ensures Reachable(REVIVED, [CLASS], o) <==> o == CLASS
  {
    FoundIsReachable(REVIVED, [CLASS], o);
    if o == CLASS { RootFound(REVIVED, [CLASS], {}, CLASS); }
    if Found(REVIVED, [CLASS], {}, o) { FoundIn(REVIVED, [CLASS], {}, {CLASS}, o); }
  }

  /** Neither the dead object nor the one it refers to is reachable; the sweep keeps the first for
      its finalizer, which then finds the second freed. */
  lemma FinalizedLosesChild()
    ensures Closed(REVIVED) && Carries(REVIVED, {CLASS}, PARENT_PAGES)
    ensures forall o {:trigger Reachable(REVIVED, [CLASS], o)} :: o in {CLASS} <==> Reachable(REVIVED, [CLASS], o)
    ensures Stays(PARENT_PAGES, DEAD) && RefersTo(REVIVED, DEAD, CHILD) && !Stays(PARENT_PAGES, CHILD)
  {
    hide On, Reachable, Kept, Stays;
    var dying, clear, marked := Object(32, false, true), Object(32, false, false), Object(32, true, false);
    ThreeObjects(dying, clear, marked, IsMarked);
    ThreeObjects(dying, clear, marked, IsClear);
    ThreeObjects(dying, clear, marked, IsDying);
    forall o ensures Reachable(REVIVED, [CLASS], o) <==> o == CLASS { ParentUnreachable(o); }
    assert Ptr(CHILD) in REVIVED[DEAD].vars;
    StaysIff(REVIVED, [CLASS], {CLASS}, PARENT_PAGES, DEAD);
    StaysIff(REVIVED, [CLASS], {CLASS}, PARENT_PAGES, CHILD);
  }
}
