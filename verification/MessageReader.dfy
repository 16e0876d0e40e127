/** messageDeserialize (vm/runtime/Message.c): it accepts exactly the messages, and what it builds is
    what the message says. */
module MessageReader {
  import opened Options
  import opened Words
  import opened MessageFormat
  import opened MessageParse

  datatype DValue = DImm(bits: nat) | DNil | DTrue | DFalse | DRef(d: nat)

  datatype DNode =
    | DSymbol(name: Name)
    | DClass(name: Name)
    | DPlain(cls: Name, hash: nat, raw: seq<Byte>, fields: seq<DValue>, bits: nat)

  type Heap = map<nat, DNode>

  /** What the destination keeps while a message comes in: the old objects, and for each plain
      object of the message one of its own. */
  ghost predicate Kept(heap: Heap, heap': Heap)
  {
    forall d {:trigger heap[d]} :: d in heap ==> d in heap' && heap'[d] == heap[d]
  }

  /** The heap a message arrives in. */
  datatype Destination = Destination(heap: Heap, next: nat, symbols: map<Name, nat>, classes: map<Name, nat>,
    shapes: map<Name, Shape>)

  ghost predicate DestinationOk(d: Destination)
  {
    && d.classes.Keys == d.shapes.Keys
    && (forall x {:trigger x in d.heap} :: x in d.heap ==> x < d.next)
    && (forall n {:trigger d.symbols[n]} ::
      n in d.symbols ==> d.symbols[n] in d.heap && d.heap[d.symbols[n]] == DSymbol(n))
    && (forall n {:trigger d.classes[n]} ::
      n in d.classes ==> d.classes[n] in d.heap && d.heap[d.classes[n]] == DClass(n))
  }

  ghost predicate KeptBut(heap: Heap, heap': Heap, d: nat)
  {
    forall x {:trigger heap[x]} :: x in heap && x != d ==> x in heap' && heap'[x] == heap[x]
  }

  /** Every symbol of the message is the isolate's one symbol of that name. */
  ghost predicate Interned(reg: seq<DValue>, heap: Heap, symbols: map<Name, nat>)
  {
    forall k {:trigger reg[k]} :: 0 <= k < |reg| && reg[k].DRef? && reg[k].d in heap && heap[reg[k].d].DSymbol? ==>
      heap[reg[k].d].name in symbols && symbols[heap[reg[k].d].name] == reg[k].d
  }

  lemma InternedStays(reg: seq<DValue>, heap: Heap, symbols: map<Name, nat>, d: nat, n: DNode)
    requires Interned(reg, heap, symbols) && n.DPlain?
    ensures Interned(reg, heap[d := n], symbols)
  {
  }

  ghost predicate SymbolsKept(symbols: map<Name, nat>, symbols': map<Name, nat>)
  {
    forall n {:trigger symbols[n]} :: n in symbols ==> n in symbols' && symbols'[n] == symbols[n]
  }

  // ----- what a message builds -----

  /** r is what the item stands for, its objects numbered from n on. */
  ghost predicate Built(item: Item, n: nat, reg: seq<DValue>, heap: Heap, classes: map<Name, nat>, r: DValue)
    decreases item
  {
    match item
    case Int(bits) => r == DImm(bits)
    case NilItem => r == DNil
    case TrueItem => r == DTrue
    case FalseItem => r == DFalse
    case Back(id) => id < |reg| && r == reg[id]
    case Sym(_, name) => n < |reg| && r == reg[n] && r.DRef? && r.d in heap && heap[r.d] == DSymbol(name)
    case Cls(_, name) => n < |reg| && r == reg[n] && r == if name in classes then DRef(classes[name]) else DNil
    case Obj(_, cls, hash, _, raw, items, payload) =>
      && n < |reg| && r == reg[n] && r.DRef? && r.d in heap && heap[r.d].DPlain?
      && heap[r.d].cls == cls && heap[r.d].hash == hash && heap[r.d].raw == raw
      && heap[r.d].bits == (if payload == [] then 0 else payload[0])
      && BuiltAll(items, n + 1, reg, heap, classes, heap[r.d].fields)
  }

  ghost predicate BuiltAll(items: seq<Item>, n: nat, reg: seq<DValue>, heap: Heap, classes: map<Name, nat>,
      vs: seq<DValue>)
    decreases items
  {
    |vs| == |items| && (items != [] ==>
      Built(items[0], n, reg, heap, classes, vs[0]) &&
      BuiltAll(items[1..], n + Count(items[0]), reg, heap, classes, vs[1..]))
  }

  /** The objects numbered from n on are the same in both heaps. */
  ghost predicate SameFrom(n: nat, reg: seq<DValue>, heap: Heap, heap': Heap)
  {
    forall k {:trigger reg[k]} :: n <= k < |reg| && reg[k].DRef? && reg[k].d in heap ==>
      reg[k].d in heap' && heap'[reg[k].d] == heap[reg[k].d]
  }

  lemma {:induction false} BuiltMore(item: Item, n: nat, reg: seq<DValue>, reg': seq<DValue>, heap: Heap, heap': Heap,
      classes: map<Name, nat>, r: DValue)
    requires Built(item, n, reg, heap, classes, r) && reg <= reg' && SameFrom(n, reg, heap, heap')
    ensures Built(item, n, reg', heap', classes, r)
    decreases item
  {
    if item.Obj? || item.Sym? || item.Cls? { assert reg'[n] == reg[n]; }
    if item.Obj? {
      BuiltAllMore(item.items, n + 1, reg, reg', heap, heap', classes, heap[r.d].fields);
    }
  }

  lemma {:induction false} BuiltAllMore(items: seq<Item>, n: nat, reg: seq<DValue>, reg': seq<DValue>, heap: Heap,
      heap': Heap, classes: map<Name, nat>, vs: seq<DValue>)
    requires BuiltAll(items, n, reg, heap, classes, vs) && reg <= reg' && SameFrom(n, reg, heap, heap')
    ensures BuiltAll(items, n, reg', heap', classes, vs)
    decreases items
  {
    hide Built;
    if items != [] {
      BuiltMore(items[0], n, reg, reg', heap, heap', classes, vs[0]);
      BuiltAllMore(items[1..], n + Count(items[0]), reg, reg', heap, heap', classes, vs[1..]);
    }
  }

  lemma {:induction false} BuiltSnoc(items: seq<Item>, n: nat, reg: seq<DValue>, heap: Heap, classes: map<Name, nat>,
      vs: seq<DValue>, item: Item, v: DValue)
    requires BuiltAll(items, n, reg, heap, classes, vs) && Built(item, n + CountAll(items), reg, heap, classes, v)
    ensures BuiltAll(items + [item], n, reg, heap, classes, vs + [v])
    ensures CountAll(items + [item]) == CountAll(items) + Count(item)
    decreases |items|
  {
    hide Built, Count;
    var all, values := items + [item], vs + [v];
    if items == [] {
      assert all[1..] == [] && values[1..] == [];
    } else {
      BuiltSnoc(items[1..], n + Count(items[0]), reg, heap, classes, vs[1..], item, v);
      assert all[1..] == items[1..] + [item] && values[1..] == vs[1..] + [v];
    }
  }

  class Reader {
    const data: seq<Byte>
    const classes: map<Name, nat>
    const shapes: map<Name, Shape>
    var pos: nat
    var error: bool
    var reg: seq<DValue>
    var heap: Heap
    var next: nat
    var symbols: map<Name, nat>
    ghost const first: nat

    ghost predicate Ok()
      reads this
    {
      && pos <= |data| && classes.Keys == shapes.Keys && first <= next
      && (forall d {:trigger d in heap} :: d in heap ==> d < next)
      && (forall n {:trigger symbols[n]} :: n in symbols ==> symbols[n] in heap && heap[symbols[n]] == DSymbol(n))
      && (forall n {:trigger classes[n]} :: n in classes ==> classes[n] in heap && heap[classes[n]] == DClass(n))
      && (forall k {:trigger reg[k]} :: 0 <= k < |reg| ==> 
           reg[k] == DNil || (reg[k].DRef? && reg[k].d in heap && (heap[reg[k].d].DPlain? ==> first <= reg[k].d)))
      && (forall i, j {:trigger reg[i], reg[j]} ::
        0 <= i < j < |reg| && reg[i].DRef? && heap[reg[i].d].DPlain? ==> reg[i] != reg[j])
      && Interned(reg, heap, symbols)
    }

    constructor (data: seq<Byte>, d: Destination)
      requires DestinationOk(d)
      ensures Ok() && this.data == data && classes == d.classes && shapes == d.shapes && heap == d.heap && pos == 0 &&
        !error && reg == [] && first == d.next && symbols == d.symbols
    {
      first := d.next;
      this.data, classes, shapes := data, d.classes, d.shapes;
      pos, error, reg := 0, false, [];
      heap, next, symbols := d.heap, d.next, d.symbols;
    }

    // ----- the cursor: reading past the end is an error -----

    method U8() returns (v: Byte)
      requires Ok()
      modifies this`pos, this`error
      ensures Ok() && (old(error) ==> error) && old(pos) <= pos
      ensures if old(pos) + 1 <= |data| then pos == old(pos) + 1 && error == old(error) && v == data[old(pos)]
        else error && pos == old(pos) && v == 0
    {
      if pos + 1 > |data| {
        error := true;
        return 0;
      }
      v := data[pos];
      pos := pos + 1;
    }

    method Bytes(n: nat) returns (v: seq<Byte>)
      requires Ok()
      modifies this`pos, this`error
      ensures Ok() && (old(error) ==> error) && old(pos) <= pos
      ensures if old(pos) + n <= |data| then pos == old(pos) + n && error == old(error) && v == data[old(pos)..pos]
        else error && pos == old(pos)
    {
      if pos + n > |data| {
        error := true;
        return [];
      }
      v := data[pos..pos + n];
      pos := pos + n;
    }

    method Number(n: nat) returns (v: nat)
      requires Ok()
      modifies this`pos, this`error
      ensures Ok() && (old(error) ==> error) && old(pos) <= pos
      ensures if NumberAt(data, old(pos), n).Some?
        then v == NumberAt(data, old(pos), n).value && pos == old(pos) + n && error == old(error)
        else error && pos == old(pos)
    {
      var w := Bytes(n);
      v := Load(w);
    }

    /** What any read keeps, whatever the bytes: older objects and numbers. */
    twostate predicate Grown()
      reads this
    {
      old(reg) <= reg && Kept(old(heap), heap) && SymbolsKept(old(symbols), symbols) && old(pos) <= pos &&
        (old(error) ==> error)
    }

    /** The read goes as far as the item, and builds it; or there is none and it fails. */
    twostate predicate Reads(p: Option<Got>, r: DValue)
      reads this
    {
      !old(error) ==>
        if p.None? then error
        else
          !error && pos == p.value.end && |reg| == |old(reg)| + Count(p.value.item) &&
          Built(p.value.item, |old(reg)|, reg, heap, classes, r)
    }

    method Fail()
      requires Ok()
      modifies this`error
      ensures Ok() && error
    {
      error := true;
    }

    /** A fresh object, numbered next. */
    method Allocate(n: DNode) returns (d: nat)
      requires Ok() && n.DPlain?
      modifies this`reg, this`heap, this`next
      ensures Ok() && Grown() && d !in old(heap) && heap == old(heap)[d := n] && reg == old(reg) + [DRef(d)]
    {
      d := next;
      heap := heap[d := n];
      next := next + 1;
      reg := reg + [DRef(d)];
    }

    /** asSymbol: the destination's one symbol of that name. */
    method AsSymbol(name: Name) returns (d: nat)
      requires Ok()
      modifies this`reg, this`heap, this`next, this`symbols
      ensures Ok() && Grown() && d in heap && heap[d] == DSymbol(name) && reg == old(reg) + [DRef(d)]
    {
      if name in symbols {
        d := symbols[name];
        reg := reg + [DRef(d)];
      } else {
        d := next;
        heap := heap[d := DSymbol(name)];
        next := next + 1;
        symbols := symbols[name := d];
        reg := reg + [DRef(d)];
      }
    }

    method ReadName() returns (name: Name)
      requires Ok()
      modifies this`pos, this`error
      ensures Ok() && (old(error) ==> error) && old(pos) <= pos
      ensures !old(error) ==> if NameAt(data, old(pos)).Some?
        then !error && name == NameAt(data, old(pos)).value.name && pos == NameAt(data, old(pos)).value.end
        else error
    {
      var len := Number(4);
      name := Bytes(len);
    }

    method ReadValue() returns (r: DValue)
      requires Ok()
      modifies this
      ensures Ok() && Grown() && (pos > old(pos) || error)
      ensures Reads(Parse(data, old(pos), |old(reg)|, shapes), r)
      decreases |data| - pos, 1
    {
      hide Ok, Built;
      var tag := U8();
      match tag
      case 1 =>
        var bits := Number(8);
        r := DImm(bits);
        BuiltLeaf(Int(bits), |reg|, reg, heap, classes, r);
      case 2 =>
        r := DNil;
        BuiltLeaf(NilItem, |reg|, reg, heap, classes, r);
      case 3 =>
        r := DTrue;
        BuiltLeaf(TrueItem, |reg|, reg, heap, classes, r);
      case 4 =>
        r := DFalse;
        BuiltLeaf(FalseItem, |reg|, reg, heap, classes, r);
      case 5 => r := ReadSymbol();
      case 6 => r := ReadClass();
      case 7 => r := ReadObject();
      case 8 => r := ReadBack();
      case _ =>
        Fail();
        return DNil;
    }

    method ReadBack() returns (r: DValue)
      requires Ok() && pos > 0 && data[pos - 1] == 8
      modifies this`pos, this`error
      ensures Ok() && Grown() && Reads(ParseLeaf(data, old(pos) - 1, |reg|), r)
    {
      hide Ok;
      var id := Number(4);
      if id >= |reg| {
        Fail();
        return DNil;
      }
      r := reg[id];
    }

    method ReadSymbol() returns (r: DValue)
      requires Ok() && pos > 0 && data[pos - 1] == 5
      modifies this
      ensures Ok() && Grown() && Reads(ParseLeaf(data, old(pos) - 1, |old(reg)|), r)
    {
      hide Ok;
      var name := ReadName();
      if error { return DNil; }
      var d := AsSymbol(name);
      r := DRef(d);
    }

    /** A class the destination does not have comes out as nil. */
    method ReadClass() returns (r: DValue)
      requires Ok() && pos > 0 && data[pos - 1] == 6
      modifies this
      ensures Ok() && Grown() && Reads(ParseLeaf(data, old(pos) - 1, |old(reg)|), r)
    {
      var name := ReadName();
      if error { return DNil; }
      if |name| >= NAME_BUFFER {
        Fail();
        return DNil;
      }
      r := if name in classes then DRef(classes[name]) else DNil;
      reg := reg + [r];
    }

    /** Class name, hash and indexed size. A name too long for the buffer, or of no class here,
        is an error; a message that ends in the numbers goes on with what it has, and fails later. */
    method ReadHeader() returns (name: Name, hash: nat, indexed: nat, go: bool)
      requires Ok()
      modifies this`pos, this`error
      ensures Ok() && (old(error) ==> error) && old(pos) <= pos && (go ==> name in shapes) && (!go ==> error)
      ensures !old(error) ==> if ParseHeader(data, old(pos), shapes).Some?
        then !error && go && Header(name, hash, indexed, pos) == ParseHeader(data, old(pos), shapes).value
        else error
    {
      hide NameAt, NumberAt;
      hash, indexed, go := 0, 0, false;
      name := ReadName();
      if error { return; }
      if |name| >= NAME_BUFFER || name !in shapes {
        Fail();
        return;
      }
      go := true;
      hash := Number(8);
      indexed := Number(4);
    }

    method ReadObject() returns (r: DValue)
      requires Ok()
      modifies this
      ensures Ok() && Grown() && Reads(ParseObject(data, old(pos), |old(reg)|, shapes), r)
      decreases |data| - pos, 4
    {
      hide Ok, ParseHeader, ParseBody, ParsePayload, BuiltAll, Built, FieldCount;
      var name, hash, indexed, go := ReadHeader();
      if !go { return DNil; }
      var shape := shapes[name];
      ghost var n, older := |reg|, heap;
      var d := Allocate(DPlain(name, hash, [], seq(FieldCount(shape, indexed), _ => DNil), 0));
      r := DRef(d);
      ghost var a, bodyAt := heap, pos;
      ReadBody(d, shape, indexed);
      ghost var b, payloadAt, reg1 := heap, pos, reg;
      ReadPayload(d, IsFloat(shape));
      KeptChain(older, a, b, heap, d);
      if !error {
        OthersDiffer(d, n);
        ObjectBuilt(ParseBody(data, bodyAt, n + 1, shapes, shape, indexed).value,
          ParsePayload(data, payloadAt, IsFloat(shape)).value, name, hash, indexed, n, reg, b, heap, classes, d);
      }
    }

    /** The object being read into, last in the registry when its body begins. */
    ghost predicate Target(d: nat, my: nat)
      reads this
    {
      d in heap && heap[d].DPlain? && my < |reg| && reg[my] == DRef(d)
    }

    lemma OthersDiffer(d: nat, my: nat)
      requires Ok() && Target(d, my)
      ensures forall k {:trigger reg[k]} :: my < k < |reg| ==> reg[k] != DRef(d)
    {
      forall k | my < k < |reg| ensures reg[k] != DRef(d) { var _ := reg[my]; }
    }

    /** What reading into d keeps: everything else, and d's class, hash and payload. */
    twostate predicate GrownBut(d: nat)
      reads this
    {
      && old(reg) <= reg && KeptBut(old(heap), heap, d) && SymbolsKept(old(symbols), symbols) && old(pos) <= pos &&
        (old(error) ==> error)
      && (d in old(heap) && d in heap && old(heap)[d].DPlain? && heap[d].DPlain? ==>
            heap[d].cls == old(heap)[d].cls && heap[d].hash == old(heap)[d].hash)
    }

    ghost predicate BodyRead(b: Option<GotBody>, n: nat, d: nat)
      reads this
    {
      match b
      case None => error
      case Some(g) =>
        && !error && pos == g.end && |reg| == n + CountAll(g.items) && d in heap && heap[d].DPlain?
        && heap[d].raw == g.raw && BuiltAll(g.items, n, reg, heap, classes, heap[d].fields)
    }

    ghost predicate FieldsRead(all: Option<GotAll>, n: nat, d: nat)
      reads this
    {
      match all
      case None => error
      case Some(g) =>
        && !error && pos == g.end && |reg| == n + CountAll(g.items) && d in heap && heap[d].DPlain?
        && BuiltAll(g.items, n, reg, heap, classes, heap[d].fields)
    }

    ghost predicate PayloadRead(p: Option<seq<nat>>, end: nat, d: nat)
      reads this
    {
      match p
      case None => error
      case Some(bits) =>
        !error && pos == end && d in heap && heap[d].DPlain? && heap[d].bits == if bits == [] then 0 else bits[0]
    }

    /** The raw bytes or the fields of d, the object numbered last. */
    method ReadBody(d: nat, shape: Shape, indexed: nat)
      requires Ok() && |reg| > 0 && Target(d, |reg| - 1) && |heap[d].fields| == FieldCount(shape, indexed) &&
        heap[d].raw == [] && heap[d].bits == 0
      modifies this
      ensures Ok() && GrownBut(d) && Target(d, |old(reg)| - 1) && heap[d].bits == 0
      ensures !old(error) ==> BodyRead(ParseBody(data, old(pos), |old(reg)|, shapes, shape, indexed), |old(reg)|, d)
      decreases |data| - pos, 3
    {
      hide ParseAll, Interned;
      if IsRaw(shape) {
        var raw := Bytes(indexed);
        if !error {
          InternedStays(reg, heap, symbols, d, heap[d].(raw := raw));
          heap := heap[d := heap[d].(raw := raw)];
        }
      } else {
        hide BuiltAll, CountAll;
        ReadFields(d, FieldCount(shape, indexed));
      }
    }

    method ReadFields(d: nat, nfields: nat)
      requires Ok() && |reg| > 0 && Target(d, |reg| - 1) && |heap[d].fields| == nfields && heap[d].raw == [] &&
        heap[d].bits == 0
      modifies this
      ensures Ok() && GrownBut(d) && Target(d, |old(reg)| - 1) && heap[d].bits == 0 && heap[d].raw == []
      ensures !old(error) ==> FieldsRead(ParseAll(data, old(pos), |old(reg)|, shapes, nfields), |old(reg)|, d)
      decreases |data| - pos, 2
    {
      hide ParseAll, BuiltAll, CountAll, Built, Count, Parse, FieldsSoFar, Interned;
      ghost var n, start := |reg|, pos;
      ghost var items: seq<Item> := [];
      FieldsBegin(data, pos, n, shapes, nfields, reg, heap, classes);
      var i := 0;
      while i < nfields
        invariant 0 <= i <= nfields && Ok() && GrownBut(d) && Target(d, n - 1) && |heap[d].fields| == nfields &&
          heap[d].raw == [] && heap[d].bits == 0 && error == old(error)
        invariant !error ==>
          i == |items| && FieldsSoFar(data, start, pos, n, shapes, nfields, items, reg, heap, classes,
            heap[d].fields[..i])
        decreases nfields - i
      {
        hide ParseAll, BuiltAll, CountAll, Built, Count, Parse, FieldsSoFar, Interned;
        ghost var reg0, heap0, pos0 := reg, heap, pos;
        var fv := ReadValue();
        if error {
          if !old(error) { FieldMissing(data, start, pos0, n, shapes, nfields, items, reg0, heap0, classes, d); }
          return;
        }
        assert heap[d] == heap0[d];
        ghost var heap1 := heap;
        InternedStays(reg, heap, symbols, d, heap[d].(fields := heap[d].fields[i := fv]));
        heap := heap[d := heap[d].(fields := heap[d].fields[i := fv])];
        OthersDiffer(d, n - 1);
        FieldCame(data, start, pos0, pos, n, shapes, nfields, items, reg0, reg, heap0, heap1, heap, classes, d, fv);
        items := items + [Parse(data, pos0, |reg0|, shapes).value.item];
        i := i + 1;
      }
      if !error { FieldsEnd(data, start, pos, n, shapes, nfields, items, reg, heap, classes, heap[d].fields); }
    }

    method ReadPayload(d: nat, isFloat: bool)
      requires Ok() && d in heap && heap[d].DPlain? && heap[d].bits == 0
      modifies this`pos, this`error, this`heap
      ensures Ok() && KeptBut(old(heap), heap, d) && old(pos) <= pos && (old(error) ==> error)
      ensures d in heap && heap[d].DPlain? && heap[d] == old(heap)[d].(bits := heap[d].bits)
      ensures !old(error) ==> PayloadRead(ParsePayload(data, old(pos), isFloat), old(pos) + PayloadSize(isFloat), d)
    {
      if isFloat {
        var bits := Number(8);
        heap := heap[d := heap[d].(bits := bits)];
      }
    }
  }

  lemma BuiltLeaf(item: Item, n: nat, reg: seq<DValue>, heap: Heap, classes: map<Name, nat>, r: DValue)
    requires (item.Int? && r == DImm(item.bits)) || (item.NilItem? && r == DNil) || (item.TrueItem? && r == DTrue) ||
      (item.FalseItem? && r == DFalse)
    ensures Built(item, n, reg, heap, classes, r) && Count(item) == 0
  {
  }

  lemma KeptChain(older: Heap, a: Heap, b: Heap, c: Heap, d: nat)
    requires d !in older && Kept(older, a) && KeptBut(a, b, d) && KeptBut(b, c, d)
    ensures Kept(older, c)
  {
    forall x | x in older ensures x in c && c[x] == older[x] { assert a[x] == older[x]; assert b[x] == a[x]; }
  }

  // ----- one object -----

  lemma ObjectBuilt(b: GotBody, payload: seq<nat>, cls: Name, hash: nat, indexed: nat, n: nat, reg: seq<DValue>,
      heap: Heap, heap': Heap, classes: map<Name, nat>, d: nat)
    requires n < |reg| == n + 1 + CountAll(b.items) && reg[n] == DRef(d) && KeptBut(heap, heap', d)
    requires d in heap && d in heap' && heap[d].DPlain? && heap'[d].DPlain?
    requires heap'[d].cls == cls && heap'[d].hash == hash && heap'[d].raw == b.raw &&
      heap'[d].fields == heap[d].fields && heap'[d].bits == (if payload == [] then 0 else payload[0])
    requires BuiltAll(b.items, n + 1, reg, heap, classes, heap[d].fields)
    requires forall k {:trigger reg[k]} :: n < k < |reg| ==> reg[k] != DRef(d)
    ensures var item := Obj(n, cls, hash, indexed, b.raw, b.items, payload);
      Built(item, n, reg, heap', classes, DRef(d)) && |reg| == n + Count(item)
  {
    hide BuiltAll, CountAll;
    assert SameFrom(n + 1, reg, heap, heap');
    BuiltAllMore(b.items, n + 1, reg, reg, heap, heap', classes, heap[d].fields);
  }

  /** The first fields have been read; the rest of the message decides. */
  ghost predicate FieldsSoFar(data: seq<Byte>, start: nat, pos: nat, n: nat, shapes: map<Name, Shape>, nfields: nat,
      items: seq<Item>, reg: seq<DValue>, heap: Heap, classes: map<Name, nat>, vs: seq<DValue>)
  {
    && |items| <= nfields && |reg| == n + CountAll(items) && BuiltAll(items, n, reg, heap, classes, vs)
    && ParseAll(data, start, n, shapes, nfields) ==
      var rest := ParseAll(data, pos, |reg|, shapes, nfields - |items|);
      if rest.None? then None else Some(GotAll(items + rest.value.items, rest.value.end))
  }

  lemma FieldsBegin(data: seq<Byte>, pos: nat, n: nat, shapes: map<Name, Shape>, nfields: nat, reg: seq<DValue>,
      heap: Heap, classes: map<Name, nat>)
    requires |reg| == n
    ensures FieldsSoFar(data, pos, pos, n, shapes, nfields, [], reg, heap, classes, [])
  {
    var rest := ParseAll(data, pos, n, shapes, nfields);
    hide ParseAll;
    if rest.Some? { assert [] + rest.value.items == rest.value.items; }
  }

  lemma FieldMissing(data: seq<Byte>, start: nat, pos: nat, n: nat, shapes: map<Name, Shape>, nfields: nat,
      items: seq<Item>, reg: seq<DValue>, heap: Heap, classes: map<Name, nat>, d: nat)
    requires d in heap && heap[d].DPlain? && |items| < nfields == |heap[d].fields|
    requires FieldsSoFar(data, start, pos, n, shapes, nfields, items, reg, heap, classes, heap[d].fields[..|items|])
    requires Parse(data, pos, |reg|, shapes).None?
    ensures ParseAll(data, start, n, shapes, nfields).None?
  {
    hide Parse, BuiltAll, CountAll;
  }

  lemma FieldCame(data: seq<Byte>, start: nat, pos: nat, pos': nat, n: nat, shapes: map<Name, Shape>, nfields: nat,
      items: seq<Item>, reg: seq<DValue>, reg': seq<DValue>, heap: Heap, heap1: Heap, heap': Heap,
      classes: map<Name, nat>, d: nat, fv: DValue)
    requires d in heap && heap[d].DPlain? && |items| < nfields == |heap[d].fields| && 0 < n <= |reg|
    requires FieldsSoFar(data, start, pos, n, shapes, nfields, items, reg, heap, classes, heap[d].fields[..|items|])
    requires reg <= reg' && Kept(heap, heap1) && Parse(data, pos, |reg|, shapes).Some?
    requires var g := Parse(data, pos, |reg|, shapes).value;
      g.end == pos' && |reg'| == |reg| + Count(g.item) && Built(g.item, |reg|, reg', heap1, classes, fv)
    requires d in heap1 && heap1[d] == heap[d] &&
      heap' == heap1[d := heap1[d].(fields := heap1[d].fields[|items| := fv])]
    requires forall k {:trigger reg'[k]} :: n - 1 < k < |reg'| ==> reg'[k] != DRef(d)
    ensures FieldsSoFar(data, start, pos', n, shapes, nfields, items + [Parse(data, pos, |reg|, shapes).value.item],
      reg', heap', classes, heap'[d].fields[..|items| + 1])
  {
    hide Parse, ParseAll, Built, BuiltAll, CountAll, Count, Kept;
    var item := Parse(data, pos, |reg|, shapes).value.item;
    FieldParsed(data, start, pos, n, shapes, nfields, items, |reg|);
    FieldBuilt(n, items, reg, reg', heap, heap1, heap', classes, d, item, fv);
  }

  lemma FieldBuilt(n: nat, items: seq<Item>, reg: seq<DValue>, reg': seq<DValue>, heap: Heap, heap1: Heap, heap': Heap,
      classes: map<Name, nat>, d: nat, item: Item, fv: DValue)
    requires d in heap && heap[d].DPlain? && |items| < |heap[d].fields| && 0 < n <= |reg| == n + CountAll(items)
    requires BuiltAll(items, n, reg, heap, classes, heap[d].fields[..|items|]) && reg <= reg' && Kept(heap, heap1)
    requires Built(item, |reg|, reg', heap1, classes, fv) && d in heap1 && heap1[d] == heap[d]
    requires heap' == heap1[d := heap1[d].(fields := heap1[d].fields[|items| := fv])]
    requires forall k {:trigger reg'[k]} :: n - 1 < k < |reg'| ==> reg'[k] != DRef(d)
    ensures BuiltAll(items + [item], n, reg', heap', classes, heap'[d].fields[..|items| + 1])
    ensures CountAll(items + [item]) == CountAll(items) + Count(item)
  {
    hide Built, BuiltAll, CountAll, Count;
    var vs := heap[d].fields[..|items|];
    assert SameFrom(n, reg, heap, heap') by {
      forall k | n <= k < |reg| && reg[k].DRef? && reg[k].d in heap
        ensures reg[k].d in heap' && heap'[reg[k].d] == heap[reg[k].d] { assert reg'[k] == reg[k]; }
    }
    assert SameFrom(|reg|, reg', heap1, heap');
    hide SameFrom, Kept;
    BuiltAllMore(items, n, reg, reg', heap, heap', classes, vs);
    BuiltMore(item, |reg|, reg', reg', heap1, heap', classes, fv);
    BuiltSnoc(items, n, reg', heap', classes, vs, item, fv);
    assert heap'[d].fields[..|items| + 1] == vs + [fv];
  }

  lemma FieldParsed(data: seq<Byte>, start: nat, pos: nat, n: nat, shapes: map<Name, Shape>, nfields: nat,
      items: seq<Item>, m: nat)
    requires |items| < nfields && Parse(data, pos, m, shapes).Some?
    requires ParseAll(data, start, n, shapes, nfields) ==
      var rest := ParseAll(data, pos, m, shapes, nfields - |items|);
      if rest.None? then None else Some(GotAll(items + rest.value.items, rest.value.end))
    ensures var g := Parse(data, pos, m, shapes).value;
      ParseAll(data, start, n, shapes, nfields) ==
      var rest := ParseAll(data, g.end, m + Count(g.item), shapes, nfields - |items| - 1);
      if rest.None? then None else Some(GotAll(items + [g.item] + rest.value.items, rest.value.end))
  {
    hide Parse, Count;
    var g := Parse(data, pos, m, shapes).value;
    var rest := ParseAll(data, g.end, m + Count(g.item), shapes, nfields - |items| - 1);
    if rest.Some? { assert items + ([g.item] + rest.value.items) == items + [g.item] + rest.value.items; }
  }

  lemma FieldsEnd(data: seq<Byte>, start: nat, pos: nat, n: nat, shapes: map<Name, Shape>, nfields: nat,
      items: seq<Item>, reg: seq<DValue>, heap: Heap, classes: map<Name, nat>, fields: seq<DValue>)
    requires |items| == nfields == |fields|
    requires FieldsSoFar(data, start, pos, n, shapes, nfields, items, reg, heap, classes, fields[..nfields])
    ensures ParseAll(data, start, n, shapes, nfields) == Some(GotAll(items, pos)) && |reg| == n + CountAll(items) &&
      BuiltAll(items, n, reg, heap, classes, fields)
  {
    hide BuiltAll, CountAll;
    assert fields[..nfields] == fields && items + [] == items;
  }

  // ----- the whole -----

  /** The bytes begin with a message. */
  ghost predicate IsMessage(data: seq<Byte>, shapes: map<Name, Shape>)
  {
    exists item {:trigger Valid(item, 0, shapes)} :: Valid(item, 0, shapes) && Encode(item) <= data
  }

  lemma MessageIff(data: seq<Byte>, shapes: map<Name, Shape>)
    ensures Parse(data, 0, 0, shapes).Some? <==> IsMessage(data, shapes)
    ensures Parse(data, 0, 0, shapes).Some? ==>
      var g := Parse(data, 0, 0, shapes).value;
      Valid(g.item, 0, shapes) && data[..g.end] == Encode(g.item)
  {
    hide Parse, Valid, Encode;
    if Parse(data, 0, 0, shapes).Some? { ParseSound(data, 0, 0, shapes); }
    if item :| Valid(item, 0, shapes) && Encode(item) <= data {
      assert At(data, 0, Encode(item));
      ParseComplete(data, 0, 0, shapes, item);
    }
  }

  /** messageDeserialize. It succeeds exactly if the bytes begin with a message, and then answers what
      that message stands for, in a heap with new objects besides the old ones. */
  method Deserialize(data: seq<Byte>, d: Destination)
      returns (ok: bool, root: DValue, heap: Heap, reg: seq<DValue>, symbols: map<Name, nat>, pos: nat,
        ghost item: Item)
    requires DestinationOk(d)
    ensures ok <==> IsMessage(data, d.shapes)
    ensures ok ==> pos <= |data| && Valid(item, 0, d.shapes) && data[..pos] == Encode(item)
    ensures ok ==> |reg| == Count(item) && Built(item, 0, reg, heap, d.classes, root)
    ensures Kept(d.heap, heap) && SymbolsKept(d.symbols, symbols) && Interned(reg, heap, symbols)
    ensures forall i, j {:trigger reg[i], reg[j]} ::
      0 <= i < j < |reg| && reg[i].DRef? && reg[i].d in heap && heap[reg[i].d].DPlain? ==> reg[i] != reg[j]
    ensures forall k {:trigger reg[k]} ::
      0 <= k < |reg| && reg[k].DRef? && reg[k].d in heap && heap[reg[k].d].DPlain? ==> reg[k].d !in d.heap
  {
    hide Parse, Valid, Encode, Built, Count, IsMessage;
    var reader := new Reader(data, d);
    MessageIff(data, d.shapes);
    root := reader.ReadValue();
    ok, heap, reg, symbols, pos := !reader.error, reader.heap, reader.reg, reader.symbols, reader.pos;
    item := if ok then Parse(data, 0, 0, d.shapes).value.item else NilItem;
  }
}
