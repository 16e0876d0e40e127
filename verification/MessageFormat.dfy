/** The wire form of an object graph (vm/runtime/Message.c): a pre-order walk in which each
    object is written once and afterwards named by its number. */
module MessageFormat {
  import opened Words

  type Name = seq<Byte>
  type Oid = nat

  datatype Value = Imm(bits: nat) | NilValue | TrueValue | FalseValue | Ref(o: Oid)

  datatype Shape = Shape(payloadSize: nat, varsSize: nat, isIndexed: bool, isBytes: bool)

  /** A boxed float keeps its bits in one unscanned word. */
  predicate IsFloat(s: Shape)
  {
    s.payloadSize == 1 && s.varsSize == 0 && !s.isIndexed
  }

  datatype Node =
    | Symbol(name: Name)
    | Class(name: Name)
    | Rejected
    | Plain(cls: Name, hash: nat, raw: seq<Byte>, fields: seq<Value>, bits: nat)

  /** Objects, and the shapes of the classes that have a name. */
  datatype Graph = Graph(nodes: map<Oid, Node>, shapes: map<Name, Shape>)

  function IndexedSize(s: Shape, n: Node): nat
    requires n.Plain? && (s.isIndexed && !s.isBytes ==> s.varsSize <= |n.fields|)
  {
    if !s.isIndexed then 0 else if s.isBytes then |n.raw| else |n.fields| - s.varsSize
  }

  const U32 := 0x1_0000_0000
  const U64 := 0x1_0000_0000_0000_0000
  /** The reader copies a class name into a buffer of this size, with a terminator. */
  const NAME_BUFFER := 512

  /** An object as its class's shape has it; byte-shaped objects have no named variables. */
  ghost predicate PlainOk(s: Shape, n: Node)
    requires n.Plain?
  {
    && n.hash < U64 && n.bits < U64 && |n.cls| < NAME_BUFFER
    && (s.isIndexed && s.isBytes ==> s.varsSize == 0 && n.fields == [])
    && (!(s.isIndexed && s.isBytes) ==> n.raw == [])
    && (!s.isIndexed ==> |n.fields| == s.varsSize) && (s.isIndexed && !s.isBytes ==> s.varsSize <= |n.fields|)
    && IndexedSize(s, n) < U32 && (!IsFloat(s) ==> n.bits == 0)
  }

  ghost predicate ValueOk(g: Graph, v: Value)
  {
    (v.Imm? ==> v.bits < U64) && (v.Ref? ==> v.o in g.nodes)
  }

  ghost predicate NodeOk(g: Graph, n: Node)
  {
    match n
    case Symbol(name) => |name| < U32
    case Class(name) => |name| < NAME_BUFFER && name in g.shapes
    case Rejected => true
    case Plain(cls, _, _, fields, _) =>
      cls in g.shapes && PlainOk(g.shapes[cls], n) && forall i {:trigger fields[i]} ::
        0 <= i < |fields| ==> ValueOk(g, fields[i])
  }

  ghost predicate GraphOk(g: Graph)
  {
    && (forall o {:trigger g.nodes[o]} :: o in g.nodes ==> NodeOk(g, g.nodes[o])) && |g.nodes| < U32
    && (forall o, p {:trigger g.nodes[o], g.nodes[p]} ::
      o in g.nodes && p in g.nodes && !g.nodes[o].Plain? && !g.nodes[o].Rejected? && g.nodes[o] == g.nodes[p] ==>
      o == p)
  }

  // ----- reachability -----

  /** A variable of a refers to b. */
  ghost predicate Points(g: Graph, a: Oid, b: Oid)
  {
    a in g.nodes && g.nodes[a].Plain? && Ref(b) in g.nodes[a].fields
  }

  ghost predicate IsPath(g: Graph, path: seq<Oid>)
  {
    forall i {:trigger path[i]} :: 0 < i < |path| ==> Points(g, path[i - 1], path[i])
  }

  /** Variables lead from the value v to o. */
  ghost predicate Reachable(g: Graph, v: Value, o: Oid)
  {
    exists path {:trigger IsPath(g, path)} ::
      IsPath(g, path) && path != [] && v == Ref(path[0]) && path[|path| - 1] == o
  }

  /** Nothing v reaches is of a kind that may not travel. */
  ghost predicate MayTravel(g: Graph, v: Value)
  {
    forall o {:trigger Reachable(g, v, o)} :: Reachable(g, v, o) && o in g.nodes ==> !g.nodes[o].Rejected?
  }

  lemma RootReached(g: Graph, o: Oid)
    ensures Reachable(g, Ref(o), o)
  {
    assert IsPath(g, [o]);
  }

  lemma StepReached(g: Graph, v: Value, o: Oid, p: Oid)
    requires Reachable(g, v, o) && Points(g, o, p)
    ensures Reachable(g, v, p)
  {
    var path :| IsPath(g, path) && path != [] && v == Ref(path[0]) && path[|path| - 1] == o;
    assert IsPath(g, path + [p]);
  }

  /** What holds the root and what its objects point to holds everything reachable. */
  lemma {:induction false} PathStays(g: Graph, s: set<Oid>, path: seq<Oid>)
    requires forall o, p {:trigger Points(g, o, p)} :: o in s && Points(g, o, p) ==> p in s
    requires IsPath(g, path) && path != [] && path[0] in s
    ensures path[|path| - 1] in s
  {
    if |path| > 1 {
      var init := path[..|path| - 1];
      assert IsPath(g, init) by {
        forall i | 0 < i < |init| ensures Points(g, init[i - 1], init[i]) { var _ := path[i]; }
      }
      PathStays(g, s, init);
      var _ := path[|path| - 1];
    }
  }

  // ----- the walk -----

  /** What is written for a value. The object numbers o are not part of the message; they say
      which object an item stands for. */
  datatype Item =
    | Int(bits: nat)
    | NilItem
    | TrueItem
    | FalseItem
    | Back(id: nat)
    | Sym(o: Oid, name: Name)
    | Cls(o: Oid, name: Name)
    | Obj(o: Oid, cls: Name, hash: nat, indexed: nat, raw: seq<Byte>, items: seq<Item>, payload: seq<nat>)

  /** The objects numbered so far, after an item. */
  function Seen(seen: seq<Oid>, item: Item): (r: seq<Oid>)
    ensures |seen| <= |r| && r[..|seen|] == seen
    decreases item
  {
    match item
    case Sym(o, _) => seen + [o]
    case Cls(o, _) => seen + [o]
    case Obj(o, _, _, _, _, items, _) => SeenAll(seen + [o], items)
    case _ => seen
  }

  function SeenAll(seen: seq<Oid>, items: seq<Item>): (r: seq<Oid>)
    ensures |seen| <= |r| && r[..|seen|] == seen
    decreases items
  {
    if items == [] then seen else
      var mid := Seen(seen, items[0]);
      var r := SeenAll(mid, items[1..]);
      assert r[..|seen|] == r[..|mid|][..|seen|];
      r
  }

  /** The item is what value v comes out as when the objects in seen have their numbers. */
  ghost predicate Wrote(g: Graph, seen: seq<Oid>, v: Value, item: Item)
    decreases item, 1
  {
    match v
    case Imm(bits) => item == Int(bits)
    case NilValue => item == NilItem
    case TrueValue => item == TrueItem
    case FalseValue => item == FalseItem
    case Ref(o) =>
      if o in seen then item.Back? && item.id < |seen| && seen[item.id] == o
      else WroteNew(g, seen, o, item)
  }

  ghost predicate WroteNew(g: Graph, seen: seq<Oid>, o: Oid, item: Item)
    decreases item, 0
  {
    o in g.nodes &&
    match g.nodes[o]
    case Symbol(name) => item == Sym(o, name)
    case Class(name) => item == Cls(o, name)
    case Rejected => false
    case Plain(cls, hash, raw, fields, bits) =>
      && cls in g.shapes && PlainOk(g.shapes[cls], g.nodes[o])
      && item.Obj? && item.o == o && item.cls == cls && item.hash == hash && item.raw == raw
      && item.indexed == IndexedSize(g.shapes[cls], g.nodes[o])
      && item.payload == (if IsFloat(g.shapes[cls]) then [bits] else [])
      && WroteAll(g, seen + [o], fields, item.items)
  }

  ghost predicate WroteAll(g: Graph, seen: seq<Oid>, vs: seq<Value>, items: seq<Item>)
    decreases items
  {
    |vs| == |items| &&
    (items != [] ==> Wrote(g, seen, vs[0], items[0]) && WroteAll(g, Seen(seen, items[0]), vs[1..], items[1..]))
  }

  lemma {:induction false} WroteSnoc(g: Graph, seen: seq<Oid>, vs: seq<Value>, items: seq<Item>, v: Value, item: Item)
    requires WroteAll(g, seen, vs, items) && Wrote(g, SeenAll(seen, items), v, item)
    ensures WroteAll(g, seen, vs + [v], items + [item])
    ensures SeenAll(seen, items + [item]) == Seen(SeenAll(seen, items), item)
    decreases |items|
  {
    hide Wrote, Seen;
    if items == [] {
      assert items + [item] == [item] && vs + [v] == [v] && [item][1..] == [];
    } else {
      WroteSnoc(g, Seen(seen, items[0]), vs[1..], items[1..], v, item);
      assert (items + [item])[1..] == items[1..] + [item] && (vs + [v])[1..] == vs[1..] + [v];
    }
  }

  lemma {:induction false} WroteAt(g: Graph, seen: seq<Oid>, vs: seq<Value>, items: seq<Item>, i: nat)
    requires WroteAll(g, seen, vs, items) && i < |items|
    ensures |vs| == |items| && Wrote(g, SeenAll(seen, items[..i]), vs[i], items[i])
    ensures SeenAll(seen, items[..i + 1]) == Seen(SeenAll(seen, items[..i]), items[i])
    decreases |items|
  {
    hide Wrote, Seen;
    if i == 0 {
      assert items[..0] == [] && items[..1] == [items[0]] && items[..1][1..] == [];
    } else {
      WroteAt(g, Seen(seen, items[0]), vs[1..], items[1..], i - 1);
      assert items[..i][1..] == items[1..][..i - 1] && items[..i + 1][1..] == items[1..][..i];
    }
  }

  /** Every variable of a numbered object that holds an object holds a numbered one. */
  ghost predicate Closed(g: Graph, seen: seq<Oid>, o: Oid)
  {
    forall p {:trigger Points(g, o, p)} :: Points(g, o, p) ==> p in seen
  }

  /** What was written is closed: nothing an object points to is left out. */
  lemma {:induction false} WroteClosed(g: Graph, seen: seq<Oid>, v: Value, item: Item)
    requires Wrote(g, seen, v, item)
    ensures v.Ref? ==> v.o in Seen(seen, item)
    ensures forall o {:trigger Closed(g, Seen(seen, item), o)} :: o in Seen(seen, item) && o !in seen ==>
              Closed(g, Seen(seen, item), o) && o in g.nodes && !g.nodes[o].Rejected?
    decreases item, 1
  {
    if v.Ref? && v.o !in seen {
      var o := v.o;
      var after := Seen(seen, item);
      if item.Obj? {
        WroteAllClosed(g, seen + [o], g.nodes[o].fields, item.items);
        SeenIn(after, seen + [o], o);
        assert after == SeenAll(seen + [o], item.items);
        assert Closed(g, after, o);
        assert g.nodes[o].Plain?;
        hide Wrote, WroteAll, Seen, SeenAll, Closed;
        forall q | q in after && q !in seen ensures Closed(g, after, q) && q in g.nodes && !g.nodes[q].Rejected? {
          assert q != o ==> q !in seen + [o];
        }
      } else {
        assert after == seen + [o];
      }
    }
  }

  lemma SeenIn(after: seq<Oid>, s: seq<Oid>, o: Oid)
    requires |s| <= |after| && after[..|s|] == s && o in s
    ensures o in after
  {
    var k :| 0 <= k < |s| && s[k] == o;
    assert after[k] == after[..|s|][k];
  }

  lemma {:induction false} WroteAllClosed(g: Graph, seen: seq<Oid>, vs: seq<Value>, items: seq<Item>)
    requires WroteAll(g, seen, vs, items)
    ensures forall p {:trigger p in SeenAll(seen, items)} :: Ref(p) in vs ==> p in SeenAll(seen, items)
    ensures forall o {:trigger Closed(g, SeenAll(seen, items), o)} :: o in SeenAll(seen, items) && o !in seen ==>
              Closed(g, SeenAll(seen, items), o) && o in g.nodes && !g.nodes[o].Rejected?
    decreases items, 0
  {
    if items != [] {
      var mid := Seen(seen, items[0]);
      var after := SeenAll(seen, items);
      WroteClosed(g, seen, vs[0], items[0]);
      WroteAllClosed(g, mid, vs[1..], items[1..]);
      assert after == SeenAll(mid, items[1..]);
      hide Wrote, WroteAll, Seen, SeenAll;
      forall p | p in mid ensures p in after { SeenIn(after, mid, p); }
      forall p | Ref(p) in vs ensures p in after { assert Ref(p) == vs[0] || Ref(p) in vs[1..]; }
      forall o | o in after && o !in seen ensures Closed(g, after, o) && o in g.nodes && !g.nodes[o].Rejected? {
        if o in mid { assert Closed(g, mid, o); } else { assert Closed(g, SeenAll(mid, items[1..]), o); }
      }
    }
  }

  // ----- bytes -----

  ghost predicate Fits(item: Item)
    decreases item
  {
    match item
    case Int(bits) => bits < U64
    case Back(id) => id < U32
    case Sym(_, name) => |name| < U32
    case Cls(_, name) => |name| < U32
    case Obj(_, cls, hash, indexed, _, items, bits) =>
      && |cls| < U32 && hash < U64 && indexed < U32 &&
        (forall i {:trigger bits[i]} :: 0 <= i < |bits| ==> bits[i] < U64) && AllFit(items)
    case _ => true
  }

  ghost predicate AllFit(items: seq<Item>)
    decreases items
  {
    items != [] ==> Fits(items[0]) && AllFit(items[1..])
  }

  function EncodeName(name: Name): seq<Byte>
  {
    Word(|name|, 4) + name
  }

  function EncodeBits(bits: seq<nat>): seq<Byte>
  {
    if bits == [] then [] else Word(bits[0], 8)
  }

  function Tag(item: Item): Byte
  {
    match item
    case Int(_) => 1
    case NilItem => 2
    case TrueItem => 3
    case FalseItem => 4
    case Sym(_, _) => 5
    case Cls(_, _) => 6
    case Obj(_, _, _, _, _, _, _) => 7
    case Back(_) => 8
  }

  function Encode(item: Item): (s: seq<Byte>)
    ensures s != []
    decreases item, 1
  {
    [Tag(item)] + Body(item)
  }

  function Body(item: Item): seq<Byte>
    decreases item, 0
  {
    match item
    case Int(bits) => Word(bits, 8)
    case Sym(_, name) => EncodeName(name)
    case Cls(_, name) => EncodeName(name)
    case Obj(_, cls, hash, indexed, raw, items, payload) =>
      EncodeName(cls) + (Word(hash, 8) + (Word(indexed, 4) + (raw + (EncodeAll(items) + EncodeBits(payload)))))
    case Back(id) => Word(id, 4)
    case _ => []
  }

  function EncodeAll(items: seq<Item>): seq<Byte>
    decreases items
  {
    if items == [] then [] else Encode(items[0]) + EncodeAll(items[1..])
  }

  lemma {:induction false} EncodeSnoc(items: seq<Item>, item: Item)
    ensures EncodeAll(items + [item]) == EncodeAll(items) + Encode(item)
    decreases |items|
  {
    hide Encode;
    if items == [] {
      assert items + [item] == [item] && [item][1..] == [];
    } else {
      EncodeSnoc(items[1..], item);
      assert (items + [item])[1..] == items[1..] + [item];
    }
  }

  lemma {:induction false} EncodedAt(bytes: seq<Byte>, p: nat, items: seq<Item>, i: nat)
    requires At(bytes, p, EncodeAll(items)) && i < |items|
    ensures At(bytes, p + |EncodeAll(items[..i])|, Encode(items[i]))
    ensures EncodeAll(items[..i + 1]) == EncodeAll(items[..i]) + Encode(items[i])
    decreases |items|
  {
    hide Encode, At;
    AtSplit(bytes, p, Encode(items[0]), EncodeAll(items[1..]));
    if i == 0 {
      assert items[..0] == [] && items[..1] == [items[0]] && items[..1][1..] == [];
    } else {
      EncodedAt(bytes, p + |Encode(items[0])|, items[1..], i - 1);
      assert items[..i][1..] == items[1..][..i - 1] && items[..i + 1][1..] == items[1..][..i];
    }
  }
}
