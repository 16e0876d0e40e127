/** Sending a graph to another isolate (vm/runtime/Message.c): what is written is a message there, and
    what it builds is a copy. */
module MessageRoundTrip {
  import opened Words
  import opened MessageFormat
  import opened MessageWriter
  import opened MessageParse
  import opened MessageReader

  /** r is v's counterpart, given which object of the destination has which number. */
  ghost predicate Corr(seen: seq<Oid>, reg: seq<DValue>, v: Value, r: DValue)
  {
    match v
    case Imm(bits) => r == DImm(bits)
    case NilValue => r == DNil
    case TrueValue => r == DTrue
    case FalseValue => r == DFalse
    case Ref(o) => r.DRef? && exists k {:trigger seen[k]} :: 0 <= k < |seen| && k < |reg| && seen[k] == o && r == reg[k]
  }

  ghost predicate FieldsCorr(seen: seq<Oid>, reg: seq<DValue>, vs: seq<Value>, rs: seq<DValue>)
  {
    |vs| == |rs| && forall i {:trigger vs[i]} {:trigger rs[i]} :: 0 <= i < |vs| ==> Corr(seen, reg, vs[i], rs[i])
  }

  /** Object k has arrived: class by name, identity hash, bytes, fields and payload. */
  ghost predicate Arrived(g: Graph, seen: seq<Oid>, reg: seq<DValue>, heap: Heap, k: nat)
  {
    k < |seen| && k < |reg| && seen[k] in g.nodes && reg[k].DRef? && reg[k].d in heap &&
      IsCopy(seen, reg, g.nodes[seen[k]], heap[reg[k].d])
  }

  ghost predicate IsCopy(seen: seq<Oid>, reg: seq<DValue>, n: Node, d: DNode)
  {
    match n
    case Symbol(name) => d == DSymbol(name)
    case Class(name) => d == DClass(name)
    case Rejected => false
    case Plain(cls, hash, raw, fields, bits) =>
      d.DPlain? && d.cls == cls && d.hash == hash && d.raw == raw && d.bits == bits &&
        FieldsCorr(seen, reg, fields, d.fields)
  }

  ghost predicate AllArrived(g: Graph, seen: seq<Oid>, reg: seq<DValue>, heap: Heap, lo: nat)
  {
    |seen| == |reg| && forall k: nat {:trigger reg[k]} :: lo <= k < |seen| ==> Arrived(g, seen, reg, heap, k)
  }

  lemma CorrMore(seen: seq<Oid>, seen': seq<Oid>, reg: seq<DValue>, reg': seq<DValue>, v: Value, r: DValue)
    requires Corr(seen, reg, v, r) && seen <= seen' && reg <= reg'
    ensures Corr(seen', reg', v, r)
  {
    if v.Ref? {
      var k :| 0 <= k < |seen| && k < |reg| && seen[k] == v.o && r == reg[k];
      assert seen'[k] == v.o;
    }
  }

  lemma ArrivedMore(g: Graph, seen: seq<Oid>, seen': seq<Oid>, reg: seq<DValue>, reg': seq<DValue>, heap: Heap,
      heap': Heap, k: nat)
    requires Arrived(g, seen, reg, heap, k) && seen <= seen' && reg <= reg' && reg[k].d in heap' &&
      heap'[reg[k].d] == heap[reg[k].d]
    ensures Arrived(g, seen', reg', heap', k)
  {
    hide Corr;
    assert seen'[k] == seen[k] && reg'[k] == reg[k];
    var n := g.nodes[seen[k]];
    if n.Plain? {
      forall i | 0 <= i < |n.fields|
        ensures Corr(seen', reg', n.fields[i], heap[reg[k].d].fields[i])
        { CorrMore(seen, seen', reg, reg', n.fields[i], heap[reg[k].d].fields[i]); }
    }
  }

  /** The destination has the message's classes, with the shapes they have at the source. */
  ghost predicate Matching(g: Graph, shapes: map<Name, Shape>)
  {
    forall n {:trigger n in g.shapes} :: n in g.shapes ==> n in shapes && shapes[n] == g.shapes[n]
  }

  // ----- what is written is a message -----

  /** The item with its objects called by their numbers. */
  function Numbered(item: Item, n: nat): Item
    decreases item
  {
    match item
    case Sym(_, name) => Sym(n, name)
    case Cls(_, name) => Cls(n, name)
    case Obj(_, cls, hash, indexed, raw, items, payload) =>
      Obj(n, cls, hash, indexed, raw, NumberedAll(items, n + 1), payload)
    case _ => item
  }

  function NumberedAll(items: seq<Item>, n: nat): (r: seq<Item>)
    ensures |r| == |items|
    decreases items
  {
    if items == [] then [] else [Numbered(items[0], n)] + NumberedAll(items[1..], n + Count(items[0]))
  }

  lemma {:induction false} NumberedSame(item: Item, n: nat)
    ensures Encode(Numbered(item, n)) == Encode(item) && Count(Numbered(item, n)) == Count(item)
    decreases item
  {
    if item.Obj? { AllNumberedSame(item.items, n + 1); }
  }

  lemma {:induction false} AllNumberedSame(items: seq<Item>, n: nat)
    ensures EncodeAll(NumberedAll(items, n)) == EncodeAll(items) && CountAll(NumberedAll(items, n)) == CountAll(items)
    decreases items
  {
    hide Encode, Count, Numbered;
    if items != [] {
      NumberedSame(items[0], n);
      AllNumberedSame(items[1..], n + Count(items[0]));
      assert NumberedAll(items, n)[1..] == NumberedAll(items[1..], n + Count(items[0]));
    }
  }

  lemma {:induction false} SeenCounts(seen: seq<Oid>, item: Item)
    ensures |Seen(seen, item)| == |seen| + Count(item)
    decreases item
  {
    if item.Obj? { AllSeenCounts(seen + [item.o], item.items); }
  }

  lemma {:induction false} AllSeenCounts(seen: seq<Oid>, items: seq<Item>)
    ensures |SeenAll(seen, items)| == |seen| + CountAll(items)
    decreases items
  {
    hide Seen, Count;
    if items != [] {
      SeenCounts(seen, items[0]);
      AllSeenCounts(Seen(seen, items[0]), items[1..]);
    }
  }

  lemma {:induction false} WrittenValid(g: Graph, seen: seq<Oid>, v: Value, item: Item, shapes: map<Name, Shape>)
    requires GraphOk(g) && Matching(g, shapes) && Wrote(g, seen, v, item) && Fits(item)
    ensures Valid(Numbered(item, |seen|), |seen|, shapes)
    decreases item, 1
  {
    if v.Ref? && v.o !in seen {
      var o := v.o;
      assert NodeOk(g, g.nodes[o]);
      hide GraphOk;
      if item.Obj? {
        hide WroteAll, AllFit, NumberedAll, ValidAll;
        AllWrittenValid(g, seen + [o], g.nodes[o].fields, item.items, shapes);
      }
    }
  }

  lemma {:induction false} AllWrittenValid(g: Graph, seen: seq<Oid>, vs: seq<Value>, items: seq<Item>,
      shapes: map<Name, Shape>)
    requires GraphOk(g) && Matching(g, shapes) && WroteAll(g, seen, vs, items) && AllFit(items)
    ensures ValidAll(NumberedAll(items, |seen|), |seen|, shapes)
    decreases items, 0
  {
    hide GraphOk, Matching, Wrote, Fits, Valid, Numbered, Seen, Count;
    if items != [] {
      WrittenValid(g, seen, vs[0], items[0], shapes);
      SeenCounts(seen, items[0]);
      AllWrittenValid(g, Seen(seen, items[0]), vs[1..], items[1..], shapes);
      NumberedSame(items[0], |seen|);
      NumberedRest(items, |seen|);
    }
  }

  // ----- what is built is a copy -----

  ghost predicate NoNil(reg: seq<DValue>)
  {
    forall k {:trigger reg[k]} :: 0 <= k < |reg| ==> reg[k].DRef?
  }

  /** Every class of the message is here. */
  ghost predicate ClassesHere(g: Graph, heap: Heap, classes: map<Name, nat>)
  {
    forall n {:trigger n in g.shapes} :: n in g.shapes ==>
      n in classes && classes[n] in heap && heap[classes[n]] == DClass(n)
  }

  ghost predicate RefsFrom(reg: seq<DValue>, a: nat, b: nat)
  {
    forall k {:trigger reg[k]} :: a <= k < b && k < |reg| ==> reg[k].DRef?
  }

  /** What is known of an object that was written and built. */
  lemma ObjectParts(g: Graph, seen: seq<Oid>, o: Oid, item: Item, reg: seq<DValue>, heap: Heap,
      classes: map<Name, nat>, r: DValue)
    requires WroteNew(g, seen, o, item) && item.Obj?
    requires Built(Numbered(item, |seen|), |seen|, reg, heap, classes, r)
    ensures o in g.nodes && g.nodes[o].Plain? && WroteAll(g, seen + [o], g.nodes[o].fields, item.items)
    ensures Seen(seen, item) == SeenAll(seen + [o], item.items) && Count(item) == 1 + CountAll(item.items)
    ensures |seen| < |reg| && r == reg[|seen|] && r.DRef? && r.d in heap && heap[r.d].DPlain?
    ensures BuiltAll(NumberedAll(item.items, |seen| + 1), |seen| + 1, reg, heap, classes, heap[r.d].fields)
    ensures var n := g.nodes[o];
      heap[r.d].cls == n.cls && heap[r.d].hash == n.hash && heap[r.d].raw == n.raw && heap[r.d].bits == n.bits
  {
    hide WroteAll, SeenAll, CountAll, BuiltAll, NumberedAll;
  }

  lemma {:induction false} NumbersRefs(g: Graph, seen: seq<Oid>, v: Value, item: Item, reg: seq<DValue>, heap: Heap,
      classes: map<Name, nat>, r: DValue)
    requires GraphOk(g) && ClassesHere(g, heap, classes) && Wrote(g, seen, v, item)
    requires Built(Numbered(item, |seen|), |seen|, reg, heap, classes, r)
    ensures RefsFrom(reg, |seen|, |seen| + Count(item))
    decreases item, 1
  {
    hide WroteNew, WroteAll, NumberedAll, BuiltAll, CountAll, GraphOk, ClassesHere, Built, Numbered, Seen, Count;
    if v.Ref? && v.o !in seen && item.Obj? {
      ObjectParts(g, seen, v.o, item, reg, heap, classes, r);
      AllNumbersRefs(g, seen + [v.o], g.nodes[v.o].fields, item.items, reg, heap, classes, heap[r.d].fields);
    } else {
      LeafRefs(g, seen, v, item, reg, heap, classes, r);
    }
  }

  lemma LeafRefs(g: Graph, seen: seq<Oid>, v: Value, item: Item, reg: seq<DValue>, heap: Heap,
      classes: map<Name, nat>, r: DValue)
    requires GraphOk(g) && ClassesHere(g, heap, classes) && Wrote(g, seen, v, item) && !item.Obj?
    requires Built(Numbered(item, |seen|), |seen|, reg, heap, classes, r)
    ensures RefsFrom(reg, |seen|, |seen| + Count(item))
  {
    if v.Ref? && v.o !in seen { assert NodeOk(g, g.nodes[v.o]); }
  }

  lemma {:induction false} AllNumbersRefs(g: Graph, seen: seq<Oid>, vs: seq<Value>, items: seq<Item>,
      reg: seq<DValue>, heap: Heap, classes: map<Name, nat>, rs: seq<DValue>)
    requires GraphOk(g) && ClassesHere(g, heap, classes) && WroteAll(g, seen, vs, items)
    requires BuiltAll(NumberedAll(items, |seen|), |seen|, reg, heap, classes, rs)
    ensures RefsFrom(reg, |seen|, |seen| + CountAll(items))
    decreases items, 0
  {
    hide GraphOk, ClassesHere, Wrote, Built, Numbered, Seen, Count;
    if items != [] {
      NumbersRefs(g, seen, vs[0], items[0], reg, heap, classes, rs[0]);
      SeenCounts(seen, items[0]);
      NumberedSame(items[0], |seen|);
      NumberedRest(items, |seen|);
      AllNumbersRefs(g, Seen(seen, items[0]), vs[1..], items[1..], reg, heap, classes, rs[1..]);
    }
  }

  ghost predicate ArrivedFrom(g: Graph, seen: seq<Oid>, reg: seq<DValue>, heap: Heap, a: nat, b: nat)
  {
    forall k: nat {:trigger reg[k]} :: a <= k < b && k < |reg| ==> Arrived(g, seen, reg, heap, k)
  }

  lemma {:induction false} BuiltArrives(g: Graph, seen: seq<Oid>, v: Value, item: Item, all: seq<Oid>,
      reg: seq<DValue>, heap: Heap, classes: map<Name, nat>, r: DValue)
    requires GraphOk(g) && ClassesHere(g, heap, classes) && Wrote(g, seen, v, item) && NoNil(reg)
    requires Built(Numbered(item, |seen|), |seen|, reg, heap, classes, r)
    requires Seen(seen, item) <= all && |all| == |reg|
    ensures Corr(all, reg, v, r) && ArrivedFrom(g, all, reg, heap, |seen|, |seen| + Count(item))
    decreases item, 1
  {
    if v.Ref? && v.o !in seen && item.Obj? {
      hide WroteNew, Built, Numbered, Seen, Count, GraphOk, ClassesHere, NoNil, Corr, ArrivedFrom;
      NewArrives(g, seen, v.o, item, all, reg, heap, classes, r);
    } else {
      LeafArrives(g, seen, v, item, all, reg, heap, classes, r);
    }
  }

  lemma LeafArrives(g: Graph, seen: seq<Oid>, v: Value, item: Item, all: seq<Oid>, reg: seq<DValue>, heap: Heap,
      classes: map<Name, nat>, r: DValue)
    requires GraphOk(g) && ClassesHere(g, heap, classes) && Wrote(g, seen, v, item) && NoNil(reg) && !item.Obj?
    requires Built(Numbered(item, |seen|), |seen|, reg, heap, classes, r)
    requires Seen(seen, item) <= all && |all| == |reg|
    ensures Corr(all, reg, v, r) && ArrivedFrom(g, all, reg, heap, |seen|, |seen| + Count(item))
  {
    hide GraphOk, ClassesHere, WroteNew;
    if v.Ref? && v.o !in seen {
      hide Built, Numbered, Seen, Count, Corr, ArrivedFrom, NoNil;
      NamedArrives(g, seen, v.o, item, all, reg, heap, classes, r);
    } else {
      hide Arrived;
      assert Seen(seen, item) == seen && Count(item) == 0;
      if v.Ref? { assert all[item.id] == seen[item.id]; }
    }
  }

  lemma NamedArrives(g: Graph, seen: seq<Oid>, o: Oid, item: Item, all: seq<Oid>, reg: seq<DValue>, heap: Heap,
      classes: map<Name, nat>, r: DValue)
    requires GraphOk(g) && ClassesHere(g, heap, classes) && WroteNew(g, seen, o, item) && NoNil(reg) && !item.Obj?
    requires Built(Numbered(item, |seen|), |seen|, reg, heap, classes, r)
    requires Seen(seen, item) <= all && |all| == |reg|
    ensures Corr(all, reg, Ref(o), r) && ArrivedFrom(g, all, reg, heap, |seen|, |seen| + Count(item))
  {
    assert NodeOk(g, g.nodes[o]);
    assert Seen(seen, item) == seen + [o];
    assert all[|seen|] == (seen + [o])[|seen|];
    hide GraphOk;
    assert Arrived(g, all, reg, heap, |seen|);
    ArrivedOne(g, all, reg, heap, |seen|);
    hide Arrived;
  }

  lemma {:induction false} NewArrives(g: Graph, seen: seq<Oid>, o: Oid, item: Item, all: seq<Oid>,
      reg: seq<DValue>, heap: Heap, classes: map<Name, nat>, r: DValue)
    requires GraphOk(g) && ClassesHere(g, heap, classes) && WroteNew(g, seen, o, item) && item.Obj? && NoNil(reg)
    requires Built(Numbered(item, |seen|), |seen|, reg, heap, classes, r)
    requires Seen(seen, item) <= all && |all| == |reg|
    ensures Corr(all, reg, Ref(o), r) && ArrivedFrom(g, all, reg, heap, |seen|, |seen| + Count(item))
    decreases item, 0
  {
    hide GraphOk, ClassesHere, BuiltAll, WroteAll, WroteNew, PlainOk, FieldsCorr, NoNil, ArrivedFrom, Built, Numbered,
      Seen, Count;
    ObjectParts(g, seen, o, item, reg, heap, classes, r);
    var n := g.nodes[o];
    var inner := seen + [o];
    AllBuiltArrive(g, inner, n.fields, item.items, all, reg, heap, classes, heap[r.d].fields);
    assert inner <= SeenAll(inner, item.items) && all[|seen|] == inner[|seen|] == o;
    assert IsCopy(all, reg, n, heap[r.d]);
    assert Arrived(g, all, reg, heap, |seen|);
    hide Arrived, IsCopy;
    ArrivedOne(g, all, reg, heap, |seen|);
    ArrivedJoin(g, all, reg, heap, |seen|, |seen| + 1, |seen| + Count(item));
  }

  lemma ArrivedOne(g: Graph, seen: seq<Oid>, reg: seq<DValue>, heap: Heap, k: nat)
    requires Arrived(g, seen, reg, heap, k)
    ensures ArrivedFrom(g, seen, reg, heap, k, k + 1)
  {
    hide Arrived;
  }

  lemma ArrivedJoin(g: Graph, seen: seq<Oid>, reg: seq<DValue>, heap: Heap, a: nat, b: nat, c: nat)
    requires a <= b <= c && ArrivedFrom(g, seen, reg, heap, a, b) && ArrivedFrom(g, seen, reg, heap, b, c)
    ensures ArrivedFrom(g, seen, reg, heap, a, c)
  {
    hide Arrived;
    forall k: nat | a <= k < c && k < |reg| ensures Arrived(g, seen, reg, heap, k) { var _ := reg[k]; }
  }

  lemma FieldsCons(seen: seq<Oid>, reg: seq<DValue>, vs: seq<Value>, rs: seq<DValue>)
    requires vs != [] && rs != [] && Corr(seen, reg, vs[0], rs[0]) && FieldsCorr(seen, reg, vs[1..], rs[1..])
    ensures FieldsCorr(seen, reg, vs, rs)
  {
    hide Corr;
    forall i | 0 <= i < |vs| ensures Corr(seen, reg, vs[i], rs[i]) {
      if i > 0 { assert vs[1..][i - 1] == vs[i] && rs[1..][i - 1] == rs[i]; }
    }
  }

  lemma NumberedRest(items: seq<Item>, n: nat)
    requires items != []
    ensures NumberedAll(items, n) != [] && NumberedAll(items, n)[0] == Numbered(items[0], n)
    ensures NumberedAll(items, n)[1..] == NumberedAll(items[1..], n + Count(items[0]))
  {
    hide Numbered, Count;
  }

  lemma {:induction false} AllBuiltArrive(g: Graph, seen: seq<Oid>, vs: seq<Value>, items: seq<Item>, all: seq<Oid>,
      reg: seq<DValue>, heap: Heap, classes: map<Name, nat>, rs: seq<DValue>)
    requires GraphOk(g) && ClassesHere(g, heap, classes) && WroteAll(g, seen, vs, items) && NoNil(reg)
    requires BuiltAll(NumberedAll(items, |seen|), |seen|, reg, heap, classes, rs)
    requires SeenAll(seen, items) <= all && |all| == |reg|
    ensures FieldsCorr(all, reg, vs, rs) && ArrivedFrom(g, all, reg, heap, |seen|, |seen| + CountAll(items))
    decreases items, 0
  {
    hide GraphOk, ClassesHere, Wrote, Built, Numbered, NumberedAll, Seen, Count, Corr, Arrived, NoNil, FieldsCorr,
      ArrivedFrom, WroteNew, PlainOk;
    if items == [] {
      NothingArrives(g, all, reg, heap, |seen|);
    } else {
      var mid := Seen(seen, items[0]);
      SeenCounts(seen, items[0]);
      NumberedSame(items[0], |seen|);
      NumberedRest(items, |seen|);
      BuiltArrives(g, seen, vs[0], items[0], all, reg, heap, classes, rs[0]);
      AllBuiltArrive(g, mid, vs[1..], items[1..], all, reg, heap, classes, rs[1..]);
      FieldsCons(all, reg, vs, rs);
      ArrivedJoin(g, all, reg, heap, |seen|, |mid|, |seen| + CountAll(items));
    }
  }

  lemma NothingArrives(g: Graph, seen: seq<Oid>, reg: seq<DValue>, heap: Heap, n: nat)
    ensures FieldsCorr(seen, reg, [], []) && ArrivedFrom(g, seen, reg, heap, n, n)
  {
  }

  // ----- the round trip -----

  /** The copy of a graph: same numbering, every object arrived, no two objects made one, and
      the root where it should be. */
  ghost predicate Isomorphic(g: Graph, seen: seq<Oid>, reg: seq<DValue>, heap: Heap, v: Value, r: DValue)
  {
    && AllArrived(g, seen, reg, heap, 0) && Corr(seen, reg, v, r)
    && (forall i, j {:trigger reg[i], reg[j]} :: 0 <= i < j < |reg| ==> reg[i] != reg[j])
  }

  lemma ArrivedAt(g: Graph, seen: seq<Oid>, reg: seq<DValue>, heap: Heap, k: nat)
    requires AllArrived(g, seen, reg, heap, 0) && k < |reg|
    ensures Arrived(g, seen, reg, heap, k)
  {
    hide Arrived;
    var _ := reg[k];
  }

  lemma NoneMerged(g: Graph, seen: seq<Oid>, reg: seq<DValue>, heap: Heap)
    requires GraphOk(g) && AllArrived(g, seen, reg, heap, 0) && MessageWriter.Distinct(seen)
    requires forall i, j {:trigger reg[i], reg[j]} ::
      0 <= i < j < |reg| && reg[i].DRef? && reg[i].d in heap && heap[reg[i].d].DPlain? ==> reg[i] != reg[j]
    ensures forall i, j {:trigger reg[i], reg[j]} :: 0 <= i < j < |reg| ==> reg[i] != reg[j]
  {
    hide AllArrived, FieldsCorr;
    forall i: nat, j: nat | i < j < |reg| ensures reg[i] != reg[j] {
      ArrivedAt(g, seen, reg, heap, i);
      ArrivedAt(g, seen, reg, heap, j);
      assert seen[i] != seen[j];
      var a, b := g.nodes[seen[i]], g.nodes[seen[j]];
      assert a != b || a.Plain?;
    }
  }

  /** The copies of plain objects are new in the destination. */
  ghost predicate AllNew(g: Graph, seen: seq<Oid>, reg: seq<DValue>, heap: Heap)
  {
    forall k {:trigger reg[k]} :: 0 <= k < |reg| && k < |seen| && seen[k] in g.nodes && g.nodes[seen[k]].Plain? ==>
      reg[k].DRef? && reg[k].d !in heap
  }

  lemma PlainNew(g: Graph, seen: seq<Oid>, reg: seq<DValue>, before: Heap, heap: Heap)
    requires AllArrived(g, seen, reg, heap, 0)
    requires forall k {:trigger reg[k]} ::
      0 <= k < |reg| && reg[k].DRef? && reg[k].d in heap && heap[reg[k].d].DPlain? ==> reg[k].d !in before
    ensures AllNew(g, seen, reg, before)
  {
    forall k | 0 <= k < |reg| && k < |seen| && seen[k] in g.nodes && g.nodes[seen[k]].Plain?
      ensures reg[k].DRef? && reg[k].d !in before {
      assert Arrived(g, seen, reg, heap, k);
    }
  }

  lemma Copied(g: Graph, v: Value, item: Item, reg: seq<DValue>, heap: Heap, classes: map<Name, nat>, r: DValue)
    requires GraphOk(g) && ClassesHere(g, heap, classes) && Wrote(g, [], v, item)
    requires Built(Numbered(item, 0), 0, reg, heap, classes, r) && |reg| == Count(item)
    ensures AllArrived(g, Seen([], item), reg, heap, 0) && Corr(Seen([], item), reg, v, r)
  {
    hide GraphOk, ClassesHere, Wrote, Built, Numbered, Seen, Count, Corr, Arrived;
    var seen := Seen([], item);
    SeenCounts([], item);
    NumbersRefs(g, [], v, item, reg, heap, classes, r);
    BuiltArrives(g, [], v, item, seen, reg, heap, classes, r);
    forall k: nat | k < |seen| ensures Arrived(g, seen, reg, heap, k) { var _ := reg[k]; }
  }

  /** What is written is a message for an isolate with the same classes, and the only one its bytes
      begin with. */
  lemma WrittenIsMessage(g: Graph, v: Value, item: Item, shapes: map<Name, Shape>)
    requires GraphOk(g) && Matching(g, shapes) && Wrote(g, [], v, item) && Fits(item)
    ensures IsMessage(Encode(item), shapes)
    ensures forall it, k: nat {:trigger Valid(it, 0, shapes), Encode(item)[..k]} ::
      Valid(it, 0, shapes) && k <= |Encode(item)| && Encode(item)[..k] == Encode(it) ==>
      it == Numbered(item, 0) && k == |Encode(item)|
  {
    hide GraphOk, Matching, Wrote, Fits, Valid, Numbered, Encode, Parse;
    var data := Encode(item);
    WrittenValid(g, [], v, item, shapes);
    NumberedSame(item, 0);
    assert At(data, 0, Encode(Numbered(item, 0)));
    ParseComplete(data, 0, 0, shapes, Numbered(item, 0));
    forall it, k: nat | Valid(it, 0, shapes) && k <= |data| && data[..k] == Encode(it)
      ensures it == Numbered(item, 0) && k == |data| {
      assert At(data, 0, Encode(it));
      ParseComplete(data, 0, 0, shapes, it);
    }
  }

  lemma StillHere(g: Graph, d: Destination, heap: Heap)
    requires DestinationOk(d) && Matching(g, d.shapes) && Kept(d.heap, heap)
    ensures ClassesHere(g, heap, d.classes)
  {
    forall n | n in g.shapes ensures n in d.classes && d.classes[n] in heap && heap[d.classes[n]] == DClass(n) {
      assert n in d.classes.Keys;
    }
  }

  /** Serializing a graph and reading it in a heap with the same named classes gives an
      isomorphic graph of new objects, cycles, sharing and identity hashes included, numbers
      exactly what the root reaches, and uses up every byte; it fails exactly when the root
      reaches an object that may not travel. */
  method RoundTrip(g: Graph, root: Value, d: Destination)
      returns (ok: bool, unread: int, r: DValue, heap: Heap, symbols: map<Name, nat>, ghost seen: seq<Oid>,
        ghost reg: seq<DValue>)
    requires GraphOk(g) && ValueOk(g, root) && DestinationOk(d) && Matching(g, d.shapes)
    ensures ok <==> MayTravel(g, root)
    ensures ok ==>
      Isomorphic(g, seen, reg, heap, root, r) && Kept(d.heap, heap) && AllNew(g, seen, reg, d.heap) &&
      unread == 0
    ensures ok ==> SymbolsKept(d.symbols, symbols) && Interned(reg, heap, symbols)
    ensures ok ==> forall o {:trigger Reachable(g, root, o)} :: o in seen <==> Reachable(g, root, o)
  {
    hide Wrote, Fits, Encode, Matching, Seen, AllArrived, Corr, Reachable, MayTravel, Valid, Built, Numbered, Count,
      IsMessage;
    var written, bytes, item, order := Serialize(g, root);
    seen := order;
    ok, unread, r, heap, symbols, reg := written, |bytes|, DNil, d.heap, d.symbols, [];
    if written {
      WrittenIsMessage(g, root, item, d.shapes);
      var read, value, after, registry, table, used, got := Deserialize(bytes, d);
      ok, r, heap, symbols, reg := read, value, after, table, registry;
      unread := |bytes| - used;
      assert got == Numbered(item, 0);
      NumberedSame(item, 0);
      StillHere(g, d, heap);
      Copied(g, root, item, reg, heap, d.classes, r);
      NoneMerged(g, seen, reg, heap);
      PlainNew(g, seen, reg, d.heap, heap);
    }
  }
}
