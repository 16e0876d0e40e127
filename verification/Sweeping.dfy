/** The sweep of old space (vm/memory/GarbageCollector.c): every page is walked cell by cell,
    dead objects and old free chunks are coalesced, the free list is rebuilt from nothing, and
    pages found entirely free are given back, all but the first. */
module Sweeping {
  import opened FreeList

  /** An object with its mark, and whether its class has a finalizer that has not been run for
      it; or a free chunk. */
  datatype Cell = Object(bytes: nat, marked: bool, finalizes: bool) | Hole(bytes: nat)

  /** A page's cells, from start upward without gaps. */
  datatype Page = Page(start: Addr, cells: seq<Cell>)

  ghost function Total(cells: seq<Cell>): nat
  {
    if cells == [] then 0 else Total(cells[..|cells| - 1]) + cells[|cells| - 1].bytes
  }

  ghost predicate PageOk(p: Page)
  {
    p.start != NULL && forall i {:trigger p.cells[i]} :: 0 <= i < |p.cells| ==> SizeOk(p.cells[i].bytes)
  }

  ghost predicate OnPage(p: Page, x: nat)
  {
    Within(x, p.start, Total(p.cells))
  }

  // ----- what a sweep makes of a page -----

  predicate Dead(c: Cell)
  {
    c.Hole? || (!c.marked && !c.finalizes)
  }

  predicate IsMarked(c: Cell)
  {
    c.Object? && c.marked
  }

  predicate IsClear(c: Cell)
  {
    c.Object? && !c.marked
  }

  /** Unmarked, but still to be finalized. */
  predicate IsDying(c: Cell)
  {
    c.Object? && !c.marked && c.finalizes
  }

  /** What becomes of an object that stays. The mark is flipped, either way. */
  function Flip(c: Cell): Cell
    requires c.Object?
  {
    Object(c.bytes, !c.marked, c.marked && c.finalizes)
  }

  /** What the sweep of the next cell c does to the cells already swept. */
  function Sweep1(r: seq<Cell>, c: Cell): seq<Cell>
  {
    if !Dead(c) then r + [Flip(c)]
    else if r != [] && r[|r| - 1].Hole? then r[..|r| - 1] + [Hole(r[|r| - 1].bytes + c.bytes)]
    else r + [Hole(c.bytes)]
  }

  /** The objects that stay, their marks flipped; everything between them one hole. */
  ghost function Swept(cells: seq<Cell>): seq<Cell>
  {
    if cells == [] then [] else Sweep1(Swept(cells[..|cells| - 1]), cells[|cells| - 1])
  }

  /** The holes of a page, by address. */
  ghost function Holes(start: Addr, cells: seq<Cell>): map<Addr, nat>
  {
    if cells == [] then map[] else
      var init := cells[..|cells| - 1];
      var c := cells[|cells| - 1];
      if c.Hole? then Holes(start, init)[start + Total(init) := c.bytes] else Holes(start, init)
  }

  /** The objects of a kind, by address: size and whether it is still to be finalized. */
  ghost function Objects(start: Addr, cells: seq<Cell>, kind: Cell -> bool): map<Addr, (nat, bool)>
  {
    if cells == [] then map[] else
      var init := cells[..|cells| - 1];
      var c := cells[|cells| - 1];
      if c.Object? && kind(c) then Objects(start, init, kind)[start + Total(init) := (c.bytes, c.finalizes)]
        else Objects(start, init, kind)
  }

  ghost function Finalized(m: map<Addr, (nat, bool)>): map<Addr, (nat, bool)>
  {
    map a | a in m :: (m[a].0, false)
  }

  ghost predicate HasLive(cells: seq<Cell>)
  {
    exists i {:trigger cells[i]} :: 0 <= i < |cells| && !Dead(cells[i])
  }

  ghost predicate HolesApart(cells: seq<Cell>)
  {
    forall i, j {:trigger cells[i], cells[j]} ::
      0 <= i < |cells| && j == i + 1 < |cells| ==> !(cells[i].Hole? && cells[j].Hole?)
  }

  /** The same page: the marked objects are unmarked, those still to be finalized are marked,
      and no other is left. */
  ghost predicate SameLive(start: Addr, cells: seq<Cell>, r: seq<Cell>)
  {
    && Total(r) == Total(cells)
    && Objects(start, r, IsClear) == Objects(start, cells, IsMarked)
    && Objects(start, r, IsMarked) == Finalized(Objects(start, cells, IsDying))
  }

  lemma Snoc(start: Addr, cells: seq<Cell>, c: Cell, kind: Cell -> bool)
    ensures Total(cells + [c]) == Total(cells) + c.bytes
    ensures Objects(start, cells + [c], kind) ==
      if c.Object? && kind(c) then Objects(start, cells, kind)[start + Total(cells) := (c.bytes, c.finalizes)]
        else Objects(start, cells, kind)
    ensures Holes(start, cells + [c]) == if c.Hole? then Holes(start, cells)[start + Total(cells) := c.bytes]
      else Holes(start, cells)
  {
    assert (cells + [c])[..|cells|] == cells;
  }

  lemma SweepOne(start: Addr, cells: seq<Cell>, r: seq<Cell>, c: Cell)
    requires SameLive(start, cells, r) && HolesApart(r)
    ensures SameLive(start, cells + [c], Sweep1(r, c)) && HolesApart(Sweep1(r, c))
  {
    hide Total, Objects, Holes;
    Snoc(start, cells, c, IsMarked);
    Snoc(start, cells, c, IsDying);
    if Dead(c) && r != [] && r[|r| - 1].Hole? {
      var q, h := r[..|r| - 1], r[|r| - 1];
      assert r == q + [h];
      Snoc(start, q, h, IsMarked);
      Snoc(start, q, h, IsClear);
      Snoc(start, q, Hole(h.bytes + c.bytes), IsMarked);
      Snoc(start, q, Hole(h.bytes + c.bytes), IsClear);
    } else {
      Snoc(start, r, if Dead(c) then Hole(c.bytes) else Flip(c), IsMarked);
      Snoc(start, r, if Dead(c) then Hole(c.bytes) else Flip(c), IsClear);
    }
  }

  /** Every marked object is where it was, unmarked; every unmarked one with a finalizer to run is
      where it was, marked; no other is left; holes are maximal; and nothing of the page is lost. */
  lemma {:induction false} SweptPage(start: Addr, cells: seq<Cell>)
    ensures SameLive(start, cells, Swept(cells)) && HolesApart(Swept(cells))
  {
    if cells != [] {
      var init, c := cells[..|cells| - 1], cells[|cells| - 1];
      SweptPage(start, init);
      assert cells == init + [c];
      hide SameLive, Sweep1;
      SweepOne(start, init, Swept(init), c);
    }
  }

  // ----- the walk -----

  /** The run being coalesced, if any, as a cell. */
  function Run(runStart: Addr, runSize: nat): seq<Cell>
  {
    if runStart == NULL then [] else [Hole(runSize)]
  }

  ghost predicate NoHoleLast(cells: seq<Cell>)
  {
    cells != [] ==> cells[|cells| - 1].Object?
  }

  /** The state of the walk before cell i: what is swept is out and the open run, the holes of
      out are on the free list, and as long as nothing lived nothing was put there. */
  ghost predicate Walked(page: Page, i: nat, out: seq<Cell>, runStart: Addr, runSize: nat, live: bool, before: View,
      now: View)
  {
    && PageOk(page) && i <= |page.cells| && Valid(now) && NoHoleLast(out)
    && Swept(page.cells[..i]) == out + Run(runStart, runSize)
    && (runStart != NULL ==> runStart == page.start + Total(out) && SizeOk(runSize))
    && (live <==> HasLive(page.cells[..i])) && (!live ==> out == [] && now == before)
    && Chunks(now) == Chunks(before) + Holes(page.start, out)
    && (forall x {:trigger Free(now, x)} :: Free(now, x) ==> Free(before, x) || Within(x, page.start, Total(out)))
    && (forall x {:trigger Free(before, x)} :: Free(before, x) ==> !OnPage(page, x))
  }

  lemma RunTaken(page: Page, i: nat, out: seq<Cell>, runStart: Addr, runSize: nat, live: bool, before: View, now: View)
    requires Walked(page, i, out, runStart, runSize, live, before, now) && runStart != NULL
    ensures SizeOk(runSize) && Taken(now, runStart, runSize) &&
      runStart + runSize == page.start + Total(page.cells[..i]) && Total(page.cells[..i]) <= Total(page.cells)
  {
    hide Free, Valid, Chunks, Holes, HasLive;
    SweptPage(page.start, page.cells[..i]);
    Snoc(page.start, out, Hole(runSize), IsClear);
    TotalMonotone(page.cells, i);
    hide Swept, Total, Objects;
    forall x | Within(x, runStart, runSize) ensures !Free(now, x) {
      assert OnPage(page, x) && !Within(x, page.start, Total(out));
    }
  }

  lemma {:induction false} TotalMonotone(cells: seq<Cell>, i: nat)
    requires i <= |cells|
    ensures Total(cells[..i]) <= Total(cells)
  {
    if i == |cells| {
      assert cells[..i] == cells;
    } else {
      TotalMonotone(cells[..|cells| - 1], i);
      assert cells[..|cells| - 1][..i] == cells[..i];
    }
  }

  /** Flushing the run moves it from the walk to the free list. */
  lemma Flushed(page: Page, i: nat, out: seq<Cell>, runStart: Addr, runSize: nat, live: bool, before: View, now: View,
      after: View)
    requires Walked(page, i, out, runStart, runSize, live, before, now) && runStart != NULL
    requires Valid(after) && GaveBack(now, after, runStart, runSize) &&
      Chunks(after) == Chunks(now)[runStart := runSize]
    ensures Chunks(after) == Chunks(before) + Holes(page.start, out + [Hole(runSize)])
    ensures forall x {:trigger Free(after, x)} ::
      Free(after, x) ==> Free(before, x) || Within(x, page.start, Total(out + [Hole(runSize)]))
  {
    hide Free, Valid, Chunks, Swept, HasLive, Total, Objects, Holes;
    Snoc(page.start, out, Hole(runSize), IsClear);
    forall x | Free(after, x) ensures Free(before, x) || Within(x, page.start, Total(out + [Hole(runSize)])) {
      assert Free(now, x) || Within(x, runStart, runSize);
    }
  }

  lemma Split(cells: seq<Cell>, i: nat)
    requires i < |cells|
    ensures cells[..i + 1] == cells[..i] + [cells[i]] && Swept(cells[..i + 1]) == Sweep1(Swept(cells[..i]), cells[i])
    ensures HasLive(cells[..i + 1]) <==> HasLive(cells[..i]) || !Dead(cells[i])
  {
    assert cells[..i + 1][..i] == cells[..i];
    assert cells[..i + 1][i] == cells[i];
    if k :| 0 <= k < i && !Dead(cells[..i][k]) { assert cells[..i + 1][k] == cells[k]; }
    var more := cells[..i + 1];
    if k :| 0 <= k < |more| && !Dead(more[k]) { assert k < i ==> cells[..i][k] == cells[k]; }
  }

  lemma WalkStarts(page: Page, v: View)
    requires Valid(v) && PageOk(page) && forall x {:trigger Free(v, x)} :: Free(v, x) ==> !OnPage(page, x)
    ensures Walked(page, 0, [], NULL, 0, false, v, v)
  {
    hide Valid, Free, Chunks;
  }

  /** A live object: after the run, if any, is flushed. */
  lemma WalkLive(page: Page, i: nat, out: seq<Cell>, runStart: Addr, runSize: nat, live: bool, before: View, now: View,
      after: View)
    requires Walked(page, i, out, runStart, runSize, live, before, now) && i < |page.cells| && !Dead(page.cells[i]) &&
      Valid(after)
    requires Chunks(after) == Chunks(before) + Holes(page.start, out + Run(runStart, runSize))
    requires forall x {:trigger Free(after, x)} ::
      Free(after, x) ==> Free(before, x) || Within(x, page.start, Total(out + Run(runStart, runSize)))
    ensures Walked(page, i + 1, out + Run(runStart, runSize) + [Flip(page.cells[i])], NULL, 0, true, before, after)
  {
    hide Free, Valid, Chunks, Objects, Swept, HasLive, Total, Holes;
    Split(page.cells, i);
    Snoc(page.start, out + Run(runStart, runSize), Flip(page.cells[i]), IsClear);
  }

  /** A dead cell: a run begins or goes on. */
  lemma WalkDead(page: Page, i: nat, out: seq<Cell>, runStart: Addr, runSize: nat, live: bool, before: View, now: View)
    requires Walked(page, i, out, runStart, runSize, live, before, now) && i < |page.cells| && Dead(page.cells[i])
    ensures var c := page.cells[i];
      if runStart != NULL then Walked(page, i + 1, out, runStart, runSize + c.bytes, live, before, now)
      else Walked(page, i + 1, out, page.start + Total(page.cells[..i]), c.bytes, live, before, now)
  {
    hide Free, Valid, Chunks, Objects, Swept, HasLive, Total, Holes;
    Split(page.cells, i);
    SweptPage(page.start, page.cells[..i]);
    var c := page.cells[i];
    if runStart != NULL {
      var r := out + [Hole(runSize)];
      assert r[..|r| - 1] == out;
    } else {
      assert out + [] == out;
    }
  }

  lemma WalkAt(page: Page, i: nat, out: seq<Cell>, runStart: Addr, runSize: nat, live: bool, before: View, now: View)
    requires Walked(page, i, out, runStart, runSize, live, before, now)
    ensures Valid(now) && (live <==> HasLive(page.cells[..i])) && Swept(page.cells[..i]) == out + Run(runStart, runSize)
    ensures Total(page.cells[..i]) == Total(out + Run(runStart, runSize)) <= Total(page.cells)
    ensures Chunks(now) == Chunks(before) + Holes(page.start, out)
    ensures forall x {:trigger Free(now, x)} :: Free(now, x) ==> Free(before, x) || OnPage(page, x)
    ensures !live ==> out == [] && now == before
  {
    hide Free, Valid, Chunks, HasLive, Holes;
    SweptPage(page.start, page.cells[..i]);
    TotalMonotone(page.cells, i);
    if runStart != NULL { Snoc(page.start, out, Hole(runSize), IsClear); } else { assert out + [] == out; }
  }

  /** One page of gcSweep. The cells of a page lie end to end, so a run goes on until the next
      live object. */
  method SweepPage(page: Page, first: bool, list: Allocator) returns (kept: bool, cells: seq<Cell>)
    requires Valid(list.Now()) && PageOk(page) && forall x {:trigger Free(list.Now(), x)} ::
      Free(list.Now(), x) ==> !OnPage(page, x)
    modifies list, list.bins, list.freeMap
    ensures Valid(list.Now()) && cells == Swept(page.cells) && (kept <==> first || HasLive(page.cells))
    ensures Chunks(list.Now()) == if kept then Chunks(old(list.Now())) + Holes(page.start, cells)
      else Chunks(old(list.Now()))
    ensures forall x {:trigger Free(list.Now(), x)} ::
      Free(list.Now(), x) ==> old(Free(list.Now(), x)) || OnPage(page, x)
  {
    hide Valid, Free, Chunks, Walked, Swept, HasLive, Holes, Total, GaveBack;
    ghost var before := list.Now();
    var p: nat := page.start;
    var live := false;
    var runStart: nat, runSize: nat := NULL, 0;
    var out: seq<Cell> := [];
    var i := 0;
    WalkStarts(page, before);
    assert page.cells[..0] == [];
    TotalNone();
    while i < |page.cells|
      invariant 0 <= i <= |page.cells| && Walked(page, i, out, runStart, runSize, live, before, list.Now()) &&
        p == page.start + Total(page.cells[..i])
    {
      hide Valid, Free, Chunks, Walked, Swept, HasLive, Holes, Total, GaveBack;
      var c := page.cells[i];
      ghost var now := list.Now();
      WalkAt(page, i, out, runStart, runSize, live, before, now);
      TotalNext(page.cells, i);
      if !Dead(c) {
        ghost var out0 := out;
        if runStart != NULL {
          RunTaken(page, i, out, runStart, runSize, live, before, now);
          list.AddFreeSpace(runStart, runSize);
          Flushed(page, i, out, runStart, runSize, live, before, now, list.Now());
          out := out + [Hole(runSize)];
        } else {
          assert out + Run(runStart, runSize) == out;
          WithinOut(page, i, out, runStart, runSize, live, before, now);
        }
        WalkLive(page, i, out0, runStart, runSize, live, before, now, list.Now());
        runStart, runSize := NULL, 0;
        live := true;
        out := out + [Flip(c)];
      } else {
        WalkDead(page, i, out, runStart, runSize, live, before, now);
        if runStart != NULL {
          RunTaken(page, i, out, runStart, runSize, live, before, now);
        }
        if runStart != NULL && p == runStart + runSize {
          runSize := runSize + c.bytes;
        } else {
          runStart, runSize := p, c.bytes;
        }
      }
      p := p + c.bytes;
      i := i + 1;
    }
    assert page.cells[..|page.cells|] == page.cells;
    ghost var now := list.Now();
    WalkAt(page, |page.cells|, out, runStart, runSize, live, before, now);
    cells := out + Run(runStart, runSize);
    kept := live || first;
    if kept {
      if runStart != NULL {
        RunTaken(page, |page.cells|, out, runStart, runSize, live, before, now);
        list.AddFreeSpace(runStart, runSize);
        Flushed(page, |page.cells|, out, runStart, runSize, live, before, now, list.Now());
      } else {
        assert out + Run(runStart, runSize) == out;
      }
    } else {
      NoHoles(page.start, Chunks(before));
    }
  }

  lemma TotalNone()
    ensures Total([]) == 0
  {
  }

  lemma TotalNext(cells: seq<Cell>, i: nat)
    requires i < |cells|
    ensures Total(cells[..i + 1]) == Total(cells[..i]) + cells[i].bytes
  {
    assert cells[..i + 1][..i] == cells[..i];
  }

  lemma NoHoles(start: Addr, m: map<Addr, nat>)
    ensures m + Holes(start, []) == m
  {
  }

  lemma WithinOut(page: Page, i: nat, out: seq<Cell>, runStart: Addr, runSize: nat, live: bool, before: View, now: View)
    requires Walked(page, i, out, runStart, runSize, live, before, now)
    ensures forall x {:trigger Free(now, x)} :: Free(now, x) ==> Free(before, x) || Within(x, page.start, Total(out))
  {
    hide Free, Valid, Chunks, HasLive, Holes, Swept;
  }

  // ----- all pages -----

  /** The pages that stay: the first, and those with a live object, swept. */
  ghost function Kept(pages: seq<Page>): seq<Page>
  {
    if pages == [] then [] else
      Kept(pages[..|pages| - 1]) + if |pages| == 1 || HasLive(pages[|pages| - 1].cells)
        then [Page(pages[|pages| - 1].start, Swept(pages[|pages| - 1].cells))] else []
  }

  ghost function AllHoles(pages: seq<Page>): map<Addr, nat>
  {
    if pages == [] then map[] else
      AllHoles(pages[..|pages| - 1]) +
      Holes(pages[|pages| - 1].start, pages[|pages| - 1].cells)
  }

  ghost predicate PagesOk(pages: seq<Page>)
  {
    && (forall i {:trigger pages[i]} :: 0 <= i < |pages| ==> PageOk(pages[i]))
    && (forall i, j, x {:trigger OnPage(pages[i], x), OnPage(pages[j], x)} ::
      0 <= i < j < |pages| && OnPage(pages[i], x) ==> !OnPage(pages[j], x))
  }

  ghost predicate OnSome(pages: seq<Page>, x: nat)
  {
    exists i {:trigger pages[i]} :: 0 <= i < |pages| && OnPage(pages[i], x)
  }

  lemma KeptNext(pages: seq<Page>, n: nat)
    requires n < |pages|
    ensures Kept(pages[..n + 1]) == Kept(pages[..n]) + if n == 0 || HasLive(pages[n].cells)
      then [Page(pages[n].start, Swept(pages[n].cells))] else []
  {
    assert pages[..n + 1][..n] == pages[..n];
  }

  lemma HolesNext(pages: seq<Page>, p: Page)
    ensures AllHoles(pages + [p]) == AllHoles(pages) + Holes(p.start, p.cells)
  {
    assert (pages + [p])[..|pages|] == pages;
  }

  lemma NotYet(pages: seq<Page>, n: nat, v: View)
    requires PagesOk(pages) && n < |pages| && forall x {:trigger Free(v, x)} :: Free(v, x) ==> OnSome(pages[..n], x)
    ensures forall x {:trigger Free(v, x)} :: Free(v, x) ==> !OnPage(pages[n], x)
  {
    hide Free, PageOk, OnPage;
    forall x | Free(v, x) ensures !OnPage(pages[n], x) {
      var i :| 0 <= i < |pages[..n]| && OnPage(pages[..n][i], x);
      assert OnPage(pages[i], x);
    }
  }

  lemma OnMore(pages: seq<Page>, n: nat, x: nat)
    requires n < |pages| && (OnSome(pages[..n], x) || OnPage(pages[n], x))
    ensures OnSome(pages[..n + 1], x)
  {
    hide OnPage;
    if i :| 0 <= i < |pages[..n]| && OnPage(pages[..n][i], x) { assert pages[..n + 1][i] == pages[i]; } else
      { assert pages[..n + 1][n] == pages[n]; }
  }

  /** gcSweep, up to the running of the finalizers: exactly the pages with an object that stays,
      and the first, stay, each swept, and the free list is exactly the holes of those pages. */
  method GcSweep(pages: seq<Page>, list: Allocator) returns (kept: seq<Page>)
    requires PagesOk(pages) && Lengths(list.Now())
    modifies list, list.bins, list.freeMap
    ensures Valid(list.Now()) && kept == Kept(pages) && Chunks(list.Now()) == AllHoles(kept)
  {
    hide Valid, Free, Chunks, Swept, HasLive, Holes, OnPage, PagesOk, Kept, AllHoles;
    list.Reset();
    kept := [];
    var prev := false;
    var n := 0;
    NoPages();
    assert pages[..0] == [];
    while n < |pages|
      invariant 0 <= n <= |pages| && (prev <==> n > 0)
      invariant Valid(list.Now()) && kept == Kept(pages[..n]) && Chunks(list.Now()) == AllHoles(kept)
      invariant forall x {:trigger Free(list.Now(), x)} :: Free(list.Now(), x) ==> OnSome(pages[..n], x)
    {
      hide Valid, Free, Chunks, Swept, HasLive, Holes, OnPage, PagesOk, Kept, AllHoles, OnSome;
      ghost var v := list.Now();
      NotYet(pages, n, v);
      PageAt(pages, n);
      KeptNext(pages, n);
      var keep, cells := SweepPage(pages[n], !prev, list);
      if keep {
        HolesNext(kept, Page(pages[n].start, cells));
        kept := kept + [Page(pages[n].start, cells)];
        prev := true;
      }
      forall x | Free(list.Now(), x) ensures OnSome(pages[..n + 1], x) { OnMore(pages, n, x); }
      n := n + 1;
    }
    assert pages[..|pages|] == pages;
  }

  lemma PageAt(pages: seq<Page>, n: nat)
    requires PagesOk(pages) && n < |pages|
    ensures PageOk(pages[n])
  {
  }

  lemma NoPages()
    ensures Kept([]) == [] && AllHoles([]) == map[]
  {
  }

  /** Each page that stays has its marked objects where they were, unmarked, and no two holes
      side by side. */
  lemma {:induction false} KeptSwept(pages: seq<Page>, k: nat)
    requires k < |Kept(pages)|
    ensures HolesApart(Kept(pages)[k].cells)
    ensures exists i {:trigger pages[i]} ::
      0 <= i < |pages| && Kept(pages)[k].start == pages[i].start &&
      SameLive(pages[i].start, pages[i].cells, Kept(pages)[k].cells)
  {
    hide SameLive, HolesApart, Swept, HasLive;
    var n := |pages| - 1;
    var init := pages[..n];
    if k < |Kept(init)| {
      KeptSwept(init, k);
      var i :| 0 <= i < |init| && Kept(init)[k].start == init[i].start &&
        SameLive(init[i].start, init[i].cells, Kept(init)[k].cells);
      assert pages[i] == init[i];
    } else {
      SweptPage(pages[n].start, pages[n].cells);
    }
  }

  /** No live object is lost: its page stays. */
  lemma {:induction false} LiveKept(pages: seq<Page>, i: nat)
    requires i < |pages| && HasLive(pages[i].cells)
    ensures Page(pages[i].start, Swept(pages[i].cells)) in Kept(pages)
  {
    hide Swept, HasLive;
    if i < |pages| - 1 { LiveKept(pages[..|pages| - 1], i); }
  }
}
