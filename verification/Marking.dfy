/** The mark phase of a full collection (vm/memory/GarbageCollector.c): a worklist of marked
    objects, and the remembered set rebuilt on the way. */
module Marking {

  type Oid = nat

  datatype Value = Imm(v: int) | Ptr(o: Oid)

  /** vars are the variables its class's shape says hold values. */
  datatype Obj = Obj(class_: Oid, vars: seq<Value>, young: bool)

  type Graph = map<Oid, Obj>

  ghost predicate Closed(g: Graph)
  {
    forall o {:trigger g[o]} :: o in g ==> g[o].class_ in g && forall i {:trigger g[o].vars[i]} ::
      0 <= i < |g[o].vars| && g[o].vars[i].Ptr? ==> g[o].vars[i].o in g
  }

  ghost predicate PointsTo(g: Graph, o: Oid, p: Oid)
  {
    o in g && (p == g[o].class_ || Ptr(p) in g[o].vars)
  }

  ghost predicate IsPath(g: Graph, path: seq<Oid>)
  {
    forall i {:trigger path[i]} :: 0 < i < |path| ==> PointsTo(g, path[i - 1], path[i])
  }

  /** A chain of pointers leads from a root to o. */
  ghost predicate Reachable(g: Graph, roots: seq<Oid>, o: Oid)
  {
    exists path {:trigger IsPath(g, path)} :: IsPath(g, path) && path != [] && path[0] in roots && path[|path| - 1] == o
  }

  ghost predicate Avoids(path: seq<Oid>, stale: set<Oid>)
  {
    forall i {:trigger path[i]} :: 0 <= i < |path| ==> path[i] !in stale
  }

  /** A chain of objects outside stale leads from a root to o. */
  ghost predicate Found(g: Graph, roots: seq<Oid>, stale: set<Oid>, o: Oid)
  {
    exists path {:trigger IsPath(g, path)} ::
      IsPath(g, path) && Avoids(path, stale) && path != [] && path[0] in roots && path[|path| - 1] == o
  }

  lemma FoundIsReachable(g: Graph, roots: seq<Oid>, o: Oid)
    ensures Found(g, roots, {}, o) <==> Reachable(g, roots, o)
  {
    if Reachable(g, roots, o) {
      var path :| IsPath(g, path) && path != [] && path[0] in roots && path[|path| - 1] == o;
      assert Avoids(path, {});
    }
  }

  lemma RootFound(g: Graph, roots: seq<Oid>, stale: set<Oid>, o: Oid)
    requires o in roots && o !in stale
    ensures Found(g, roots, stale, o)
  {
    assert IsPath(g, [o]) && Avoids([o], stale);
  }

  lemma StepFound(g: Graph, roots: seq<Oid>, stale: set<Oid>, o: Oid, p: Oid)
    requires Found(g, roots, stale, o) && PointsTo(g, o, p) && p !in stale
    ensures Found(g, roots, stale, p)
  {
    var path :| IsPath(g, path) && Avoids(path, stale) && path != [] && path[0] in roots && path[|path| - 1] == o;
    assert IsPath(g, path + [p]) && Avoids(path + [p], stale);
  }

  lemma {:induction false} PathFound(g: Graph, roots: seq<Oid>, stale: set<Oid>, s: set<Oid>, path: seq<Oid>)
    requires (forall o {:trigger o in roots} :: o in roots ==> o in s) &&
      (forall o, p {:trigger PointsTo(g, o, p)} :: o in s && o !in stale && PointsTo(g, o, p) ==> p in s)
    requires IsPath(g, path) && Avoids(path, stale) && path != [] && path[0] in roots
    ensures path[|path| - 1] in s
  {
    if |path| > 1 {
      var init := path[..|path| - 1];
      assert IsPath(g, init) by {
        forall i | 0 < i < |init| ensures PointsTo(g, init[i - 1], init[i]) { var _ := path[i]; }
      }
      PathFound(g, roots, stale, s, init);
      var _ := path[|path| - 1];
      assert init[|init| - 1] !in stale;
    }
  }

  predicate Young(g: Graph, o: Oid)
  {
    o in g && g[o].young
  }

  /** o refers to a young object, its class included. */
  ghost predicate RefersToYoung(g: Graph, o: Oid)
  {
    exists p {:trigger PointsTo(g, o, p)} :: PointsTo(g, o, p) && Young(g, p)
  }

  ghost predicate ToRemember(g: Graph, o: Oid)
  {
    o in g && !g[o].young && RefersToYoung(g, o)
  }

  predicate YoungVar(g: Graph, v: Value)
  {
    v.Ptr? && Young(g, v.o)
  }

  lemma RememberIff(g: Graph, o: Oid, remember: bool)
    requires o in g
    requires remember <==> Young(g, g[o].class_) || exists j {:trigger g[o].vars[j]} ::
      0 <= j < |g[o].vars| && YoungVar(g, g[o].vars[j])
    ensures remember <==> RefersToYoung(g, o)
  {
    hide Young;
    var obj := g[o];
    if Young(g, obj.class_) { assert PointsTo(g, o, obj.class_); }
    if j :| 0 <= j < |obj.vars| && YoungVar(g, obj.vars[j]) { assert PointsTo(g, o, obj.vars[j].o); }
    if p :| PointsTo(g, o, p) && Young(g, p) && p != obj.class_ {
      assert YoungVar(g, Ptr(p));
    }
  }

  ghost predicate NoRepeats(s: seq<Oid>)
  {
    forall i, j {:trigger s[i], s[j]} :: 0 <= i < j < |s| ==> s[i] != s[j]
  }

  /** The marks, the worklist, the remembered tags and the remembered set. */
  datatype View = View(marks: set<Oid>, queue: seq<Oid>, tagged: set<Oid>, remembered: seq<Oid>)

  ghost predicate Successors(g: Graph, o: Oid, marks: set<Oid>)
  {
    forall p {:trigger PointsTo(g, o, p)} :: PointsTo(g, o, p) ==> p in marks
  }

  /** What has been scanned has its successors marked and is remembered as it should be. */
  ghost predicate Done(g: Graph, v: View, o: Oid)
  {
    && Successors(g, o, v.marks)
    && (o in v.remembered <==> ToRemember(g, o)) && (o in v.tagged <==> ToRemember(g, o))
  }

  ghost predicate Pending(v: View, busy: set<Oid>, o: Oid)
  {
    o in v.queue || o in busy
  }

  /** Everything marked since is found, and is queued, once, or being scanned, or done. */
  ghost predicate Valid(g: Graph, roots: seq<Oid>, stale: set<Oid>, v: View, busy: set<Oid>)
  {
    && stale <= v.marks <= g.Keys && busy <= v.marks - stale && NoRepeats(v.queue) && NoRepeats(v.remembered)
    && (forall o {:trigger Found(g, roots, stale, o)} :: o in v.marks && o !in stale ==> Found(g, roots, stale, o))
    && (forall o {:trigger o in v.queue} :: o in v.queue ==> o in v.marks && o !in stale && o !in busy)
    && (forall o {:trigger Pending(v, busy, o)} ::
      o in v.marks && o !in stale && !Pending(v, busy, o) ==> Done(g, v, o))
    && (forall o {:trigger o in v.remembered} ::
      o in v.remembered ==> o in v.marks && o !in stale && !Pending(v, busy, o))
  }

  lemma Enqueued(g: Graph, roots: seq<Oid>, stale: set<Oid>, v: View, busy: set<Oid>, o: Oid)
    requires Valid(g, roots, stale, v, busy) && o in g && o !in v.marks && Found(g, roots, stale, o)
    ensures Valid(g, roots, stale, v.(marks := v.marks + {o}, queue := v.queue + [o]), busy)
  {
    hide Found, PointsTo, ToRemember;
    var w := v.(marks := v.marks + {o}, queue := v.queue + [o]);
    forall p | p in w.marks && p !in stale && !Pending(w, busy, p)
      ensures Done(g, w, p) { assert Done(g, v, p) by { assert !Pending(v, busy, p); } }
    forall p | p in w.remembered ensures p in w.marks && p !in stale && !Pending(w, busy, p) {
      assert p in v.remembered && !Pending(v, busy, p);
    }
    forall p | p in w.queue ensures p in w.marks && p !in stale && p !in busy { assert p in v.queue || p == o; }
    assert NoRepeats(w.queue) by { assert o !in v.queue; }
    hide Done;
  }

  lemma StaleMarked(g: Graph, roots: seq<Oid>, stale: set<Oid>, v: View, busy: set<Oid>)
    requires Valid(g, roots, stale, v, busy)
    ensures stale <= v.marks
  {}

  lemma Popped(g: Graph, roots: seq<Oid>, stale: set<Oid>, v: View)
    requires Valid(g, roots, stale, v, {}) && v.queue != []
    ensures var root := v.queue[|v.queue| - 1];
      root in g && Found(g, roots, stale, root) && root in v.marks &&
        Valid(g, roots, stale, v.(queue := v.queue[..|v.queue| - 1]), {root})
  {
    hide Found, PointsTo, Done;
    var root := v.queue[|v.queue| - 1];
    var w := v.(queue := v.queue[..|v.queue| - 1]);
    assert root in v.queue;
    forall o ensures Pending(w, {root}, o) <==> Pending(v, {}, o) {
      if o in v.queue && o != root { assert o in w.queue; }
    }
    forall o | o in w.queue ensures o in w.marks && o !in stale && o != root { assert o in v.queue; }
    forall o | o in w.remembered ensures o in w.marks && o !in stale && !Pending(w, {root}, o)
      { assert o in v.remembered; }
    forall o | o in w.marks && o !in stale && !Pending(w, {root}, o)
      ensures Done(g, w, o) { assert Done(g, v, o) by { assert !Pending(v, {}, o); } DoneSame(g, v, w, o); }
  }

  lemma DoneSame(g: Graph, v: View, w: View, o: Oid)
    requires Done(g, v, o) && v.marks <= w.marks && (o in w.remembered <==> o in v.remembered) &&
      (o in w.tagged <==> o in v.tagged)
    ensures Done(g, w, o)
  {
  }

  /** The tag is cleared and, if need be, set again with the object remembered. */
  function Rescanned(v: View, root: Oid, remember: bool): View
  {
    if remember then v.(tagged := v.tagged - {root} + {root}, remembered := v.remembered + [root])
      else v.(tagged := v.tagged - {root})
  }

  lemma Scanned(g: Graph, roots: seq<Oid>, stale: set<Oid>, v: View, root: Oid)
    requires Valid(g, roots, stale, v, {root}) && root in g && Successors(g, root, v.marks)
    ensures Valid(g, roots, stale, Rescanned(v, root, ToRemember(g, root)), {})
  {
    hide Found, PointsTo, ToRemember, Successors;
    var w := Rescanned(v, root, ToRemember(g, root));
    assert root !in v.queue;
    forall o ensures Pending(v, {root}, o) <==> Pending(w, {}, o) || o == root {}
    assert root !in v.remembered by { assert Pending(v, {root}, root); }
    forall o | o in w.marks && o !in stale && !Pending(w, {}, o) ensures Done(g, w, o) {
      if o != root { assert Done(g, v, o) by { assert !Pending(v, {root}, o); } DoneSame(g, v, w, o); }
    }
    forall o | o in w.remembered ensures o in w.marks && !Pending(w, {}, o) {
      if o != root { assert o in v.remembered; }
    }
  }

  lemma Edges(g: Graph, o: Oid)
    requires Closed(g) && o in g
    ensures g[o].class_ in g && PointsTo(g, o, g[o].class_)
    ensures forall i {:trigger g[o].vars[i]} ::
      0 <= i < |g[o].vars| && g[o].vars[i].Ptr? ==> g[o].vars[i].o in g && PointsTo(g, o, g[o].vars[i].o)
  {
  }

  lemma AllMarked(g: Graph, o: Oid, marks: set<Oid>)
    requires o in g && g[o].class_ in marks && forall j {:trigger g[o].vars[j]} ::
      0 <= j < |g[o].vars| && g[o].vars[j].Ptr? ==> g[o].vars[j].o in marks
    ensures Successors(g, o, marks)
  {
  }

  lemma OldOnly(g: Graph, o: Oid)
    requires o in g
    ensures ToRemember(g, o) <==> RefersToYoung(g, o) && !g[o].young
  {
  }

  class Marker {
    const g: Graph
    var marks: set<Oid>
    var queue: seq<Oid>
    var tagged: set<Oid>
    var remembered: seq<Oid>

    ghost function Now(): View
      reads this
    {
      View(marks, queue, tagged, remembered)
    }

    /** Clear marks and empty remembered sets; remembered tags may be left over. */
    constructor (g: Graph, tagged: set<Oid>)
      ensures this.g == g && Now() == View({}, [], tagged, [])
    {
      this.g, this.tagged, marks, queue, remembered := g, tagged, {}, [], [];
    }

    method MarkObject(o: Oid, ghost roots: seq<Oid>, ghost stale: set<Oid>, ghost busy: set<Oid>)
      requires Valid(g, roots, stale, Now(), busy) && o in g && (o !in stale ==> Found(g, roots, stale, o))
      modifies this`marks, this`queue
      ensures Valid(g, roots, stale, Now(), busy) && marks == old(marks) + {o}
      ensures queue == if o in old(marks) then old(queue) else old(queue) + [o]
    {
      hide Valid, Found;
      if o in marks { return; }
      StaleMarked(g, roots, stale, Now(), busy);
      Enqueued(g, roots, stale, Now(), busy, o);
      marks := marks + {o};
      queue := queue + [o];
    }

    /** iterateObject. */
    method IterateObject(root: Oid, ghost roots: seq<Oid>, ghost stale: set<Oid>)
      requires Closed(g) && Valid(g, roots, stale, Now(), {root}) && root in g && Found(g, roots, stale, root)
      modifies this`marks, this`queue, this`tagged, this`remembered
      ensures Valid(g, roots, stale, Now(), {}) && old(marks) <= marks && (marks == old(marks) ==> queue == old(queue))
    {
      hide Valid, Found, RefersToYoung, Closed, PointsTo, Young, Successors, ToRemember;
      var obj := g[root];
      var remember := Young(g, obj.class_);
      Edges(g, root);
      if obj.class_ !in stale { StepFound(g, roots, stale, root, obj.class_); }
      MarkObject(obj.class_, roots, stale, {root});
      for i := 0 to |obj.vars|
        invariant Valid(g, roots, stale, Now(), {root}) && old(marks) <= marks &&
          (marks == old(marks) ==> queue == old(queue))
        invariant obj.class_ in marks && forall j {:trigger obj.vars[j]} ::
          0 <= j < i && obj.vars[j].Ptr? ==> obj.vars[j].o in marks
        invariant remember <==> Young(g, obj.class_) || exists j {:trigger obj.vars[j]} ::
          0 <= j < i && YoungVar(g, obj.vars[j])
      {
        hide Valid, Found, RefersToYoung, Closed, PointsTo, Young;
        if obj.vars[i].Ptr? {
          var o := obj.vars[i].o;
          remember := remember || Young(g, o);
          if o !in stale { StepFound(g, roots, stale, root, o); }
          MarkObject(o, roots, stale, {root});
        }
      }
      AllMarked(g, root, marks);
      RememberIff(g, root, remember);
      Scanned(g, roots, stale, Now(), root);
      OldOnly(g, root);
      tagged := tagged - {root};
      if remember && !obj.young {
        tagged, remembered := tagged + {root}, remembered + [root];
      }
    }

    /** gcMarkRoots: exactly the objects found from the roots without passing through one that
        was marked before are marked besides; and of these exactly the old ones that refer to a
        young one are remembered, once each. */
    method MarkRoots(roots: seq<Oid>)
      requires Closed(g) && marks <= g.Keys && queue == [] && remembered == [] && forall i {:trigger roots[i]} ::
        0 <= i < |roots| ==> roots[i] in g
      modifies this
      ensures forall o {:trigger o in marks} {:trigger Found(g, roots, old(marks), o)} ::
        o in marks <==> o in old(marks) || Found(g, roots, old(marks), o)
      ensures NoRepeats(remembered) && forall o {:trigger o in remembered} ::
        o in remembered <==> o in marks && o !in old(marks) && ToRemember(g, o)
      ensures forall o {:trigger o in tagged} :: o in marks && o !in old(marks) ==> (o in tagged <==> o in remembered)
    {
      hide Found, ToRemember, PointsTo, Valid, Closed, NoRepeats;
      ghost var stale := marks;
      NothingMarked(g, roots, stale, tagged);
      for i := 0 to |roots|
        invariant Valid(g, roots, stale, Now(), {}) && forall j {:trigger roots[j]} :: 0 <= j < i ==> roots[j] in marks
      {
        hide Found, Valid, Closed;
        if roots[i] !in stale { RootFound(g, roots, stale, roots[i]); }
        MarkObject(roots[i], roots, stale, {});
      }
      while queue != []
        invariant Valid(g, roots, stale, Now(), {}) && forall j {:trigger roots[j]} ::
          0 <= j < |roots| ==> roots[j] in marks
        decreases g.Keys - marks, |queue|
      {
        hide Found, Valid, Closed;
        Popped(g, roots, stale, Now());
        var root := queue[|queue| - 1];
        queue := queue[..|queue| - 1];
        IterateObject(root, roots, stale);
        MarksKnown(g, roots, stale, Now());
      }
      AllDone(g, roots, stale, Now());
    }
  }

  lemma MarksKnown(g: Graph, roots: seq<Oid>, stale: set<Oid>, v: View)
    requires Valid(g, roots, stale, v, {})
    ensures v.marks <= g.Keys
  {
  }

  lemma NothingMarked(g: Graph, roots: seq<Oid>, stale: set<Oid>, tagged: set<Oid>)
    requires stale <= g.Keys
    ensures Valid(g, roots, stale, View(stale, [], tagged, []), {})
  {
    hide Found;
  }

  lemma AllDone(g: Graph, roots: seq<Oid>, stale: set<Oid>, v: View)
    requires Valid(g, roots, stale, v, {}) && v.queue == [] && forall i {:trigger roots[i]} ::
      0 <= i < |roots| ==> roots[i] in v.marks
    ensures forall o {:trigger o in v.marks} {:trigger Found(g, roots, stale, o)} ::
      o in v.marks <==> o in stale || Found(g, roots, stale, o)
    ensures NoRepeats(v.remembered) && forall o {:trigger o in v.remembered} ::
      o in v.remembered <==> o in v.marks && o !in stale && ToRemember(g, o)
    ensures forall o {:trigger o in v.tagged} :: o in v.marks && o !in stale ==> (o in v.tagged <==> o in v.remembered)
  {
    hide Found, ToRemember, PointsTo;
    forall o | o in v.marks && o !in stale ensures Done(g, v, o) { assert !Pending(v, {}, o); }
    forall o, p | o in v.marks && o !in stale && PointsTo(g, o, p)
      ensures p in v.marks { assert Successors(g, o, v.marks); }
    forall o | Found(g, roots, stale, o) ensures o in v.marks { FoundIn(g, roots, stale, v.marks, o); }
  }

  lemma FoundIn(g: Graph, roots: seq<Oid>, stale: set<Oid>, s: set<Oid>, o: Oid)
    requires (forall i {:trigger roots[i]} :: 0 <= i < |roots| ==> roots[i] in s) &&
      (forall o, p {:trigger PointsTo(g, o, p)} :: o in s && o !in stale && PointsTo(g, o, p) ==> p in s)
    requires Found(g, roots, stale, o)
    ensures o in s
  {
    var path :| IsPath(g, path) && Avoids(path, stale) && path != [] && path[0] in roots && path[|path| - 1] == o;
    PathFound(g, roots, stale, s, path);
  }

  // ----- when marking is complete -----

  /** With no mark left over, exactly the reachable objects are found. */
  lemma CleanStart(g: Graph, roots: seq<Oid>, marks: set<Oid>)
    requires forall o {:trigger o in marks} {:trigger Found(g, roots, {}, o)} ::
      o in marks <==> o in {} || Found(g, roots, {}, o)
    ensures forall o {:trigger o in marks} {:trigger Reachable(g, roots, o)} :: o in marks <==> Reachable(g, roots, o)
  {
    hide Found, Reachable;
    forall o ensures o in marks <==> Reachable(g, roots, o) { FoundIsReachable(g, roots, o); }
  }

  /** What a reachable object that was marked before refers to is marked too, or found. */
  ghost predicate StaleHarmless(g: Graph, roots: seq<Oid>, stale: set<Oid>)
  {
    forall o, p {:trigger PointsTo(g, o, p)} ::
      o in stale && Reachable(g, roots, o) && PointsTo(g, o, p) ==> p in stale || Found(g, roots, stale, p)
  }

  /** Exactly when every reachable object ends up marked, whatever was marked before. */
  lemma MarksAllIff(g: Graph, roots: seq<Oid>, stale: set<Oid>)
    ensures (forall o {:trigger Reachable(g, roots, o)} ::
      Reachable(g, roots, o) ==> o in stale || Found(g, roots, stale, o)) <==> StaleHarmless(g, roots, stale)
  {
    if forall o {:trigger Reachable(g, roots, o)} ::
      Reachable(g, roots, o) ==> o in stale || Found(g, roots, stale, o) {
      hide Found, Reachable;
      forall o, p | o in stale && Reachable(g, roots, o) && PointsTo(g, o, p)
        ensures p in stale || Found(g, roots, stale, p) { StepReached(g, roots, o, p); }
    }
    if StaleHarmless(g, roots, stale) {
      forall o | Reachable(g, roots, o) ensures o in stale || Found(g, roots, stale, o) {
        var path :| IsPath(g, path) && path != [] && path[0] in roots && path[|path| - 1] == o;
        MarkedAlong(g, roots, stale, path);
      }
    }
  }

  lemma StepReached(g: Graph, roots: seq<Oid>, o: Oid, p: Oid)
    requires Reachable(g, roots, o) && PointsTo(g, o, p)
    ensures Reachable(g, roots, p)
  {
    var path :| IsPath(g, path) && path != [] && path[0] in roots && path[|path| - 1] == o;
    assert IsPath(g, path + [p]);
  }

  lemma {:induction false} MarkedAlong(g: Graph, roots: seq<Oid>, stale: set<Oid>, path: seq<Oid>)
    requires StaleHarmless(g, roots, stale) && IsPath(g, path) && path != [] && path[0] in roots
    ensures path[|path| - 1] in stale || Found(g, roots, stale, path[|path| - 1])
  {
    hide Found, StaleHarmless;
    var last := path[|path| - 1];
    if |path| == 1 {
      if last !in stale { RootFound(g, roots, stale, last); }
    } else {
      var init := path[..|path| - 1];
      assert IsPath(g, init) by {
        forall i | 0 < i < |init| ensures PointsTo(g, init[i - 1], init[i]) { var _ := path[i]; }
      }
      MarkedAlong(g, roots, stale, init);
      var o := init[|init| - 1];
      assert PointsTo(g, o, last) by { var _ := path[|path| - 1]; }
      assert Reachable(g, roots, o);
      if o in stale {
        Harmless(g, roots, stale, o, last);
      } else if last !in stale {
        StepFound(g, roots, stale, o, last);
      }
    }
  }

  lemma Harmless(g: Graph, roots: seq<Oid>, stale: set<Oid>, o: Oid, p: Oid)
    requires StaleHarmless(g, roots, stale) && o in stale && Reachable(g, roots, o) && PointsTo(g, o, p)
    ensures p in stale || Found(g, roots, stale, p)
  {}
}
