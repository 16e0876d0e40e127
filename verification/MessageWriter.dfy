/** messageSerialize (vm/runtime/Message.c). */
module MessageWriter {
  import opened Words
  import opened MessageFormat
  import opened IdMap

  ghost predicate Distinct(seen: seq<Oid>)
  {
    forall i, j {:trigger seen[i], seen[j]} :: 0 <= i < j < |seen| ==> seen[i] != seen[j]
  }

  /** The map gives each numbered object its number. */
  ghost predicate Numbers(seen: seq<Oid>, contents: map<int, nat>)
  {
    && (forall k {:trigger seen[k]} :: 0 <= k < |seen| ==> seen[k] in contents && contents[seen[k]] == k)
    && (forall o {:trigger o in contents} :: o in contents ==> contents[o] < |seen| && seen[contents[o]] == o)
  }

  ghost predicate HasRejected(g: Graph, seen: seq<Oid>)
  {
    exists k {:trigger seen[k]} :: 0 <= k < |seen| && seen[k] in g.nodes && g.nodes[seen[k]].Rejected?
  }

  lemma NumbersMore(seen: seq<Oid>, contents: map<int, nat>, o: Oid)
    requires Numbers(seen, contents) && o !in contents
    ensures Numbers(seen + [o], contents[o := |seen|]) && o !in seen
  {}

  lemma NumbersDistinct(seen: seq<Oid>, contents: map<int, nat>)
    requires Numbers(seen, contents)
    ensures Distinct(seen)
  {}

  lemma {:induction false} SeenCount(nodes: set<Oid>, seen: seq<Oid>)
    requires Distinct(seen) && forall k {:trigger seen[k]} :: 0 <= k < |seen| ==> seen[k] in nodes
    ensures |seen| <= |nodes|
  {
    if seen != [] {
      var n := |seen| - 1;
      SeenCount(nodes - {seen[n]}, seen[..n]);
    }
  }

  class Writer {
    const g: Graph
    const ids: Table
    ghost const root: Value
    var bytes: seq<Byte>
    var error: bool
    var nextId: nat
    ghost var seen: seq<Oid>

    ghost predicate Numbered()
      reads this, ids
    {
      && GraphOk(g) && ids.Valid() && Numbers(seen, ids.contents) && nextId == |seen|
      && (forall k {:trigger seen[k]} :: 0 <= k < |seen| ==> seen[k] in g.nodes && Reachable(g, root, seen[k]))
    }

    ghost predicate Ok()
      reads this, ids
    {
      Numbered() && (error <==> HasRejected(g, seen))
    }

    ghost function Left(): set<Oid>
      reads this
    {
      g.nodes.Keys - (set o | o in seen)
    }

    constructor (g: Graph, ghost root: Value)
      requires GraphOk(g)
      ensures Ok() && this.g == g && this.root == root && bytes == [] && !error && seen == [] && fresh(ids)
    {
      this.g, this.root := g, root;
      ids := new Table();
      bytes, error, nextId, seen := [], false, 0, [];
    }

    method WriteName(name: Name)
      requires Ok()
      modifies this`bytes
      ensures Ok() && bytes == old(bytes) + EncodeName(name)
    {
      hide GraphOk, Reachable, Word, Numbers, HasRejected;
      bytes := bytes + Word(|name|, 4);
      bytes := bytes + name;
    }

    /** Nothing is taken back: numbers and bytes only grow. */
    twostate predicate Grown()
      reads this, ids
    {
      old(seen) <= seen && (old(error) ==> error) && Left() <= old(Left())
    }

    method WriteValue(v: Value) returns (ghost item: Item)
      requires Ok() && ValueOk(g, v) && (v.Ref? ==> Reachable(g, root, v.o))
      modifies this, ids
      ensures Ok() && Grown()
      ensures !error ==>
        Wrote(g, old(seen), v, item) && Fits(item) && seen == Seen(old(seen), item) &&
        bytes == old(bytes) + Encode(item)
      decreases Left(), 1
    {
      hide GraphOk, Reachable, AllFit, WroteAll, SeenAll, HasRejected, Word, Numbers;
      item := NilItem;
      if error { return; }
      match v
      case Imm(bits) =>
        item := Int(bits);
        bytes := bytes + [1];
        bytes := bytes + Word(bits, 8);
      case NilValue => bytes := bytes + [2];
      case TrueValue =>
        item := TrueItem;
        bytes := bytes + [3];
      case FalseValue =>
        item := FalseItem;
        bytes := bytes + [4];
      case Ref(o) => item := WriteObjectRef(o);
    }

    method WriteObjectRef(o: Oid) returns (ghost item: Item)
      requires Ok() && o in g.nodes && Reachable(g, root, o) && !error
      modifies this, ids
      ensures Ok() && Grown()
      ensures !error ==>
        Wrote(g, old(seen), Ref(o), item) && Fits(item) && seen == Seen(old(seen), item) &&
        bytes == old(bytes) + Encode(item)
      decreases Left(), 0
    {
      hide GraphOk, Reachable, Fits, AllFit, Encode, WroteAll, SeenAll, HasRejected, Word, EncodeName, Seen, Wrote;
      ghost var before, s := bytes, seen;
      var known, id := ids.GetOrPut(o, nextId);
      if known {
        item := Back(id);
        SmallId(g, seen, ids.contents, o);
        bytes := bytes + [8];
        bytes := bytes + Word(id, 4);
        BackWritten(g, seen, o, id, before, bytes);
        return;
      }
      NumbersMore(seen, old(ids.contents), o);
      seen := seen + [o];
      nextId := nextId + 1;
      RejectedMore(g, s, o);
      LeftLess(g, s, o);
      assert NodeOk(g, g.nodes[o]) by { NodeIsOk(g, o); }
      if g.nodes[o].Plain? {
        item := WriteObject(o, s);
      } else {
        item := WriteLeaf(o, s);
      }
    }

    /** A symbol or a class goes by its name; what may not travel ends the writing. */
    method WriteLeaf(o: Oid, ghost s: seq<Oid>) returns (ghost item: Item)
      requires seen == s + [o] && o !in s && o in g.nodes && !g.nodes[o].Plain? && NodeOk(g, g.nodes[o])
      requires !error && Numbered() && (HasRejected(g, seen) <==> g.nodes[o].Rejected?)
      modifies this`bytes, this`error
      ensures Ok()
      ensures !error ==>
        Wrote(g, s, Ref(o), item) && Fits(item) && seen == Seen(s, item) && bytes == old(bytes) + Encode(item)
    {
      hide GraphOk, Reachable, Fits, Encode, Wrote, Seen, Numbers, HasRejected, Word, EncodeName;
      ghost var before := bytes;
      match g.nodes[o]
      case Symbol(name) =>
        item := Sym(o, name);
        bytes := bytes + [5];
        WriteName(name);
        NamedWritten(g, s, o, item, before, bytes);
      case Class(name) =>
        item := Cls(o, name);
        bytes := bytes + [6];
        WriteName(name);
        NamedWritten(g, s, o, item, before, bytes);
      case Rejected =>
        item := NilItem;
        error := true;
    }

    method WriteObject(o: Oid, ghost s: seq<Oid>) returns (ghost item: Item)
      requires Ok() && !error && o in g.nodes && g.nodes[o].Plain? && Reachable(g, root, o) && seen == s + [o] &&
        o !in s
      modifies this, ids
      ensures Ok() && Grown()
      ensures !error ==>
        Wrote(g, s, Ref(o), item) && Fits(item) && seen == Seen(s, item) &&
        bytes == old(bytes) + Encode(item)
      decreases Left(), 4
    {
      hide GraphOk, Reachable, Fits, AllFit, Encode, WroteAll, SeenAll, HasRejected, EncodeAll, EncodeName, EncodeBits,
        Wrote, Numbers, Word, Seen;
      ghost var before := bytes;
      NodeIsOk(g, o);
      var Plain(cls, hash, raw, fields, bits) := g.nodes[o];
      var shape := g.shapes[cls];
      var indexed := IndexedSize(shape, g.nodes[o]);
      FieldsAreReached(g, root, o);
      WriteHeader(cls, hash, indexed);
      ghost var items := WriteBody(shape, g.nodes[o]);
      PayloadBytes(bits);
      if IsFloat(shape) { bytes := bytes + Word(bits, 8); }
      item := Obj(o, cls, hash, indexed, raw, items, if IsFloat(shape) then [bits] else []);
      if !error { ObjectWritten(g, s, o, item, before, bytes, fields); }
    }

    method WriteHeader(cls: Name, hash: nat, indexed: nat)
      requires Ok()
      modifies this`bytes
      ensures Ok() && bytes == old(bytes) + [7] + EncodeName(cls) + Word(hash, 8) + Word(indexed, 4)
    {
      hide GraphOk, Reachable, EncodeName, Word, Numbers, HasRejected;
      bytes := bytes + [7];
      WriteName(cls);
      bytes := bytes + Word(hash, 8);
      bytes := bytes + Word(indexed, 4);
    }

    /** The bytes of a byte-shaped object, or the variables of any other. */
    method WriteBody(shape: Shape, n: Node) returns (ghost items: seq<Item>)
      requires Ok() && n.Plain? && NodeOk(g, n) && shape == g.shapes[n.cls] && FieldsReached(g, root, n.fields)
      modifies this, ids
      ensures Ok() && Grown()
      ensures !error ==>
        WroteAll(g, old(seen), n.fields, items) && AllFit(items) &&
        seen == SeenAll(old(seen), items) && bytes == old(bytes) + n.raw + EncodeAll(items)
      decreases Left(), 3
    {
      hide GraphOk, Reachable, Fits, AllFit, Encode, WroteAll, SeenAll, HasRejected, EncodeAll, Wrote, Numbers, Seen;
      if shape.isIndexed && shape.isBytes {
        items := [];
        NoFields(g, seen);
        bytes := bytes + n.raw;
      } else {
        assert bytes + n.raw == bytes;
        items := WriteFields(n.fields);
      }
    }

    method WriteFields(fields: seq<Value>) returns (ghost items: seq<Item>)
      requires Ok() && FieldsReached(g, root, fields) && forall i {:trigger fields[i]} ::
        0 <= i < |fields| ==> ValueOk(g, fields[i])
      modifies this, ids
      ensures Ok() && Grown()
      ensures !error ==>
        WroteAll(g, old(seen), fields, items) && AllFit(items) && seen == SeenAll(old(seen), items) &&
        bytes == old(bytes) + EncodeAll(items)
      decreases Left(), 2
    {
      hide GraphOk, Reachable, Fits, AllFit, Encode, WroteAll, SeenAll, HasRejected, EncodeAll, Wrote, Numbers, Seen;
      items := [];
      ghost var s := seen;
      NoFields(g, seen);
      var i := 0;
      while i < |fields|
        invariant 0 <= i <= |fields| && Ok() && Grown()
        invariant !error ==>
          WroteAll(g, s, fields[..i], items) && AllFit(items) && seen == SeenAll(s, items) &&
          bytes == old(bytes) + EncodeAll(items)
      {
        hide GraphOk, Reachable, Fits, AllFit, Encode, WroteAll, SeenAll, HasRejected, EncodeAll, Wrote, Numbers, Seen;
        var item := WriteValue(fields[i]);
        if !error {
          WroteSnoc(g, s, fields[..i], items, fields[i], item);
          EncodeSnoc(items, item);
          FitSnoc(items, item);
        }
        assert fields[..i + 1] == fields[..i] + [fields[i]];
        items := items + [item];
        i := i + 1;
      }
      assert fields[..i] == fields;
    }
  }

  ghost predicate FieldsReached(g: Graph, root: Value, fields: seq<Value>)
  {
    forall i {:trigger fields[i]} :: 0 <= i < |fields| && fields[i].Ref? ==> Reachable(g, root, fields[i].o)
  }

  lemma FieldsAreReached(g: Graph, root: Value, o: Oid)
    requires o in g.nodes && g.nodes[o].Plain? && Reachable(g, root, o)
    ensures FieldsReached(g, root, g.nodes[o].fields)
  {
    hide Reachable;
    var fields := g.nodes[o].fields;
    forall i | 0 <= i < |fields| && fields[i].Ref?
      ensures Reachable(g, root, fields[i].o) { StepReached(g, root, o, fields[i].o); }
  }

  lemma SmallId(g: Graph, seen: seq<Oid>, contents: map<int, nat>, o: Oid)
    requires GraphOk(g) && Numbers(seen, contents) && o in contents && forall k {:trigger seen[k]} ::
      0 <= k < |seen| ==> seen[k] in g.nodes
    ensures contents[o] < |seen| < U32
  {
    NumbersDistinct(seen, contents);
    SeenCount(g.nodes.Keys, seen);
  }

  lemma NodeIsOk(g: Graph, o: Oid)
    requires GraphOk(g) && o in g.nodes
    ensures NodeOk(g, g.nodes[o])
  {}

  lemma BackWritten(g: Graph, seen: seq<Oid>, o: Oid, id: nat, before: seq<Byte>, bytes: seq<Byte>)
    requires id < |seen| < U32 && seen[id] == o && bytes == before + [8] + Word(id, 4)
    ensures Wrote(g, seen, Ref(o), Back(id)) && Fits(Back(id)) && Seen(seen, Back(id)) == seen &&
      bytes == before + Encode(Back(id))
  {
    hide Word;
  }

  lemma NamedWritten(g: Graph, s: seq<Oid>, o: Oid, item: Item, before: seq<Byte>, bytes: seq<Byte>)
    requires o in g.nodes && NodeOk(g, g.nodes[o]) && o !in s
    requires (g.nodes[o].Symbol? && item == Sym(o, g.nodes[o].name)) ||
      (g.nodes[o].Class? && item == Cls(o, g.nodes[o].name))
    requires bytes == before + [if item.Sym? then 5 else 6] + EncodeName(item.name)
    ensures Wrote(g, s, Ref(o), item) && Fits(item) && Seen(s, item) == s + [o] && bytes == before + Encode(item)
  {
    hide EncodeName;
  }

  lemma ObjectWritten(g: Graph, s: seq<Oid>, o: Oid, item: Item, before: seq<Byte>, bytes: seq<Byte>,
      fields: seq<Value>)
    requires o in g.nodes && g.nodes[o].Plain? && NodeOk(g, g.nodes[o]) && o !in s && item.Obj? &&
      fields == g.nodes[o].fields
    requires var n := g.nodes[o];
      item.o == o && item.cls == n.cls && item.hash == n.hash && item.raw == n.raw &&
      item.indexed == IndexedSize(g.shapes[n.cls], n)
    requires var n := g.nodes[o]; item.payload == if IsFloat(g.shapes[n.cls]) then [n.bits] else []
    requires WroteAll(g, s + [o], fields, item.items) && AllFit(item.items)
    requires bytes == before + [7] + EncodeName(item.cls) + Word(item.hash, 8) + Word(item.indexed, 4) + item.raw +
      EncodeAll(item.items) + EncodeBits(item.payload)
    ensures Wrote(g, s, Ref(o), item) && Fits(item) && Seen(s, item) == SeenAll(s + [o], item.items) &&
      bytes == before + Encode(item)
  {
    hide EncodeName, EncodeAll, Word, WroteAll, AllFit, SeenAll, EncodeBits;
    Grouped(before, [7], EncodeName(item.cls), Word(item.hash, 8), Word(item.indexed, 4), item.raw,
      EncodeAll(item.items), EncodeBits(item.payload));
  }

  lemma PayloadBytes(bits: nat)
    ensures EncodeBits([bits]) == Word(bits, 8) && EncodeBits([]) == []
  {}

  lemma Grouped<T>(b: seq<T>, t: seq<T>, n: seq<T>, h: seq<T>, i: seq<T>, r: seq<T>, f: seq<T>, p: seq<T>)
    ensures b + t + n + h + i + r + f + p == b + (t + (n + (h + (i + (r + (f + p))))))
  {}

  lemma NoFields(g: Graph, seen: seq<Oid>)
    ensures WroteAll(g, seen, [], []) && AllFit([]) && SeenAll(seen, []) == seen && EncodeAll([]) == []
  {}

  lemma {:induction false} FitSnoc(items: seq<Item>, item: Item)
    requires AllFit(items) && Fits(item)
    ensures AllFit(items + [item])
    decreases |items|
  {
    hide Fits;
    if items == [] {
      assert items + [item] == [item] && [item][1..] == [];
    } else {
      FitSnoc(items[1..], item);
      assert (items + [item])[1..] == items[1..] + [item];
    }
  }

  lemma RejectedMore(g: Graph, seen: seq<Oid>, o: Oid)
    requires o in g.nodes
    ensures HasRejected(g, seen + [o]) <==> HasRejected(g, seen) || g.nodes[o].Rejected?
  {
    var more := seen + [o];
    assert more[|seen|] == o;
    if HasRejected(g, seen) { var k :| 0 <= k < |seen| && seen[k] in g.nodes && g.nodes[seen[k]].Rejected?;
      assert more[k] == seen[k]; }
  }

  lemma LeftLess(g: Graph, seen: seq<Oid>, o: Oid)
    requires o in g.nodes && o !in seen
    ensures g.nodes.Keys - (set x | x in seen + [o]) < g.nodes.Keys - (set x | x in seen)
  {
    assert o in g.nodes.Keys - (set x | x in seen);
  }

  /** When nothing is rejected the numbered objects are exactly those the root reaches. */
  lemma AllWritten(g: Graph, root: Value, item: Item, seen: seq<Oid>)
    requires Wrote(g, [], root, item) && seen == Seen([], item) && forall k {:trigger seen[k]} ::
      0 <= k < |seen| ==> Reachable(g, root, seen[k])
    ensures forall o {:trigger Reachable(g, root, o)} :: o in seen <==> Reachable(g, root, o)
    ensures MayTravel(g, root)
  {
    WroteClosed(g, [], root, item);
    hide Wrote, Seen;
    var s := set o | o in seen;
    forall o, p | o in s && Points(g, o, p) ensures p in s { assert Closed(g, seen, o); }
    forall o | Reachable(g, root, o) ensures o in seen && (o in g.nodes ==> !g.nodes[o].Rejected?) {
      var path :| IsPath(g, path) && path != [] && root == Ref(path[0]) && path[|path| - 1] == o;
      PathStays(g, s, path);
      assert Closed(g, seen, o);
    }
  }

  /** Meeting a rejected object on the way means the root reaches one. */
  lemma StoppedAt(g: Graph, root: Value, seen: seq<Oid>)
    requires HasRejected(g, seen) && forall k {:trigger seen[k]} :: 0 <= k < |seen| ==> Reachable(g, root, seen[k])
    ensures !MayTravel(g, root)
  {
    hide Reachable;
    var k :| 0 <= k < |seen| && seen[k] in g.nodes && g.nodes[seen[k]].Rejected?;
  }

  /** A graph is written whole, as the walk's items in order, exactly if the root reaches no
      object that may not travel; the numbered objects are then what the root reaches. */
  method Serialize(g: Graph, root: Value) returns (ok: bool, bytes: seq<Byte>, ghost item: Item, ghost seen: seq<Oid>)
    requires GraphOk(g) && ValueOk(g, root)
    ensures ok <==> MayTravel(g, root)
    ensures !ok ==> bytes == []
    ensures ok ==> Wrote(g, [], root, item) && Fits(item) && bytes == Encode(item) && seen == Seen([], item)
    ensures ok ==> Distinct(seen) && forall o {:trigger Reachable(g, root, o)} :: o in seen <==> Reachable(g, root, o)
  {
    hide Wrote, Fits, Encode, Seen, Reachable, MayTravel, HasRejected, GraphOk;
    var w := new Writer(g, root);
    if root.Ref? { RootReached(g, root.o); }
    item := w.WriteValue(root);
    NumbersDistinct(w.seen, w.ids.contents);
    ok, bytes, seen := !w.error, if w.error then [] else w.bytes, w.seen;
    if ok { AllWritten(g, root, item, seen); } else { StoppedAt(g, root, seen); }
  }
}
