/** Which bytes are a message (vm/runtime/Message.c:193-314), for an isolate with these classes:
    those that begin with the wire form of an item in which every class is known, every object has
    as much in it as its class says, and every number refers back. */
module MessageParse {
  import opened Options
  import opened Words
  import opened MessageFormat

  // ----- what a message may be -----

  /** How many numbers an item takes. */
  function Count(item: Item): nat
    decreases item
  {
    match item
    case Sym(_, _) => 1
    case Cls(_, _) => 1
    case Obj(_, _, _, _, _, items, _) => 1 + CountAll(items)
    case _ => 0
  }

  function CountAll(items: seq<Item>): nat
    decreases items
  {
    if items == [] then 0 else Count(items[0]) + CountAll(items[1..])
  }

  predicate IsRaw(s: Shape)
  {
    s.isIndexed && s.isBytes
  }

  function FieldCount(s: Shape, indexed: nat): nat
  {
    if IsRaw(s) then 0 else s.varsSize + if s.isIndexed then indexed else 0
  }

  /** An item after n objects have been numbered; objects are called by their numbers. */
  ghost predicate Valid(item: Item, n: nat, shapes: map<Name, Shape>)
    decreases item
  {
    match item
    case Int(bits) => bits < U64
    case Back(id) => id < n && id < U32
    case Sym(o, name) => o == n && |name| < U32
    case Cls(o, name) => o == n && |name| < NAME_BUFFER
    case Obj(o, cls, hash, indexed, raw, items, payload) =>
      && o == n && |cls| < NAME_BUFFER && cls in shapes && hash < U64 && indexed < U32
      && |raw| == (if IsRaw(shapes[cls]) then indexed else 0) && |items| == FieldCount(shapes[cls], indexed)
      && (if IsFloat(shapes[cls]) then |payload| == 1 && payload[0] < U64 else payload == [])
      && ValidAll(items, n + 1, shapes)
    case _ => true
  }

  ghost predicate ValidAll(items: seq<Item>, n: nat, shapes: map<Name, Shape>)
    decreases items
  {
    items != [] ==> Valid(items[0], n, shapes) && ValidAll(items[1..], n + Count(items[0]), shapes)
  }

  // ----- reading it off the bytes -----

  datatype Got = Got(item: Item, end: nat)
  datatype GotAll = GotAll(items: seq<Item>, end: nat)
  datatype GotName = GotName(name: Name, end: nat)

  ghost function NumberAt(data: seq<Byte>, pos: nat, n: nat): Option<nat>
  {
    if pos + n <= |data| then Some(Load(data[pos..pos + n])) else None
  }

  ghost function NameAt(data: seq<Byte>, pos: nat): (r: Option<GotName>)
    ensures r.Some? ==> pos + 4 <= r.value.end <= |data|
  {
    var len := NumberAt(data, pos, 4);
    if len.Some? && pos + 4 + len.value <= |data| then
      Some(GotName(data[pos + 4..pos + 4 + len.value], pos + 4 + len.value))
    else None
  }

  ghost function Parse(data: seq<Byte>, pos: nat, n: nat, shapes: map<Name, Shape>): (r: Option<Got>)
    ensures r.Some? ==> pos < r.value.end <= |data|
    decreases |data| - pos, 1
  {
    if pos >= |data| then None
    else if data[pos] == 7 then ParseObject(data, pos + 1, n, shapes)
    else ParseLeaf(data, pos, n)
  }

  /** Everything but an object. */
  ghost function ParseLeaf(data: seq<Byte>, pos: nat, n: nat): (r: Option<Got>)
    requires pos < |data|
    ensures r.Some? ==> pos < r.value.end <= |data|
  {
    match data[pos]
    case 1 =>
      var bits := NumberAt(data, pos + 1, 8);
      if bits.Some? then Some(Got(Int(bits.value), pos + 9)) else None
    case 2 => Some(Got(NilItem, pos + 1))
    case 3 => Some(Got(TrueItem, pos + 1))
    case 4 => Some(Got(FalseItem, pos + 1))
    case 5 =>
      var name := NameAt(data, pos + 1);
      if name.Some? then Some(Got(Sym(n, name.value.name), name.value.end)) else None
    case 6 =>
      var name := NameAt(data, pos + 1);
      if name.Some? && |name.value.name| < NAME_BUFFER then Some(Got(Cls(n, name.value.name), name.value.end)) else None
    case 8 =>
      var id := NumberAt(data, pos + 1, 4);
      if id.Some? && id.value < n then Some(Got(Back(id.value), pos + 5)) else None
    case _ => None
  }

  /** The class name, hash and indexed size of an object. */
  datatype Header = Header(cls: Name, hash: nat, indexed: nat, end: nat)

  ghost function ParseHeader(data: seq<Byte>, pos: nat, shapes: map<Name, Shape>): (r: Option<Header>)
    ensures r.Some? ==> pos + 16 <= r.value.end <= |data| && r.value.cls in shapes
  {
    var name := NameAt(data, pos);
    if name.None? || |name.value.name| >= NAME_BUFFER || name.value.name !in shapes then None
    else
      var hash, indexed := NumberAt(data, name.value.end, 8), NumberAt(data, name.value.end + 8, 4);
      if hash.Some? && indexed.Some? then
        Some(Header(name.value.name, hash.value, indexed.value, name.value.end + 12))
      else None
  }

  ghost function ParsePayload(data: seq<Byte>, pos: nat, isFloat: bool): Option<seq<nat>>
  {
    if !isFloat then Some([])
    else
      var bits := NumberAt(data, pos, 8);
      if bits.Some? then Some([bits.value]) else None
  }

  ghost function PayloadSize(isFloat: bool): nat
  {
    if isFloat then 8 else 0
  }

  /** Raw bytes, or fields. */
  datatype GotBody = GotBody(raw: seq<Byte>, items: seq<Item>, end: nat)

  ghost function ParseBody(data: seq<Byte>, pos: nat, n: nat, shapes: map<Name, Shape>, shape: Shape, indexed: nat)
    : (r: Option<GotBody>)
    ensures r.Some? ==> pos <= r.value.end && (pos <= |data| ==> r.value.end <= |data|)
    decreases |data| - pos, FieldCount(shape, indexed) + 2
  {
    if IsRaw(shape) then
      if pos + indexed <= |data| then Some(GotBody(data[pos..pos + indexed], [], pos + indexed)) else None
    else
      var all := ParseAll(data, pos, n, shapes, FieldCount(shape, indexed));
      if all.Some? then Some(GotBody([], all.value.items, all.value.end)) else None
  }

  ghost function ParseObject(data: seq<Byte>, pos: nat, n: nat, shapes: map<Name, Shape>): (r: Option<Got>)
    ensures r.Some? ==> pos < r.value.end <= |data|
    decreases |data| - pos, 0
  {
    var h := ParseHeader(data, pos, shapes);
    if h.None? then None
    else
      var shape := shapes[h.value.cls];
      var b := ParseBody(data, h.value.end, n + 1, shapes, shape, h.value.indexed);
      if b.None? then None
      else
        var p := ParsePayload(data, b.value.end, IsFloat(shape));
        if p.None? then None
        else Some(Got(Obj(n, h.value.cls, h.value.hash, h.value.indexed, b.value.raw, b.value.items, p.value),
          b.value.end + PayloadSize(IsFloat(shape))))
  }

  ghost function ParseAll(data: seq<Byte>, pos: nat, n: nat, shapes: map<Name, Shape>, count: nat)
    : (r: Option<GotAll>)
    ensures r.Some? ==> pos <= r.value.end && (pos <= |data| ==> r.value.end <= |data|)
    decreases |data| - pos, count + 1
  {
    if count == 0 then Some(GotAll([], pos))
    else if pos >= |data| then None
    else
      var first := Parse(data, pos, n, shapes);
      if first.None? then None
      else
        var rest := ParseAll(data, first.value.end, n + Count(first.value.item), shapes, count - 1);
        if rest.None? then None else Some(GotAll([first.value.item] + rest.value.items, rest.value.end))
  }

  // ----- what is read off is what the bytes are -----

  lemma Sizes()
    ensures Pow256(4) == U32 && Pow256(8) == U64
  {
    assert Pow256(2) == 65536;
    assert Pow256(4) == 256 * (256 * Pow256(2));
    assert Pow256(6) == 256 * (256 * Pow256(4));
    assert Pow256(8) == 256 * (256 * Pow256(6));
  }

  lemma NumberIs(data: seq<Byte>, pos: nat, n: nat)
    requires pos + n <= |data|
    ensures NumberAt(data, pos, n).Some? && NumberAt(data, pos, n).value < Pow256(n)
    ensures data[pos..pos + n] == Word(NumberAt(data, pos, n).value, n)
  {
    WordLoad(data[pos..pos + n]);
  }

  lemma NumberThere(data: seq<Byte>, pos: nat, v: nat, n: nat)
    requires v < Pow256(n) && At(data, pos, Word(v, n))
    ensures NumberAt(data, pos, n) == Some(v)
  {
    LoadWord(v, n);
  }

  lemma Joined(data: seq<Byte>, a: nat, b: nat, c: nat)
    requires a <= b <= c <= |data|
    ensures data[a..b] + data[b..c] == data[a..c]
  {
  }

  lemma NameIs(data: seq<Byte>, pos: nat)
    requires NameAt(data, pos).Some?
    ensures var g := NameAt(data, pos).value;
      data[pos..g.end] == EncodeName(g.name) && |g.name| < U32
  {
    hide Word, Load, Pow256;
    Sizes();
    NumberIs(data, pos, 4);
    var g := NameAt(data, pos).value;
    Joined(data, pos, pos + 4, g.end);
  }

  lemma NameThere(data: seq<Byte>, pos: nat, name: Name)
    requires |name| < U32 && At(data, pos, EncodeName(name))
    ensures NameAt(data, pos) == Some(GotName(name, pos + |EncodeName(name)|))
  {
    hide Word, Load, Pow256;
    Sizes();
    AtSplit(data, pos, Word(|name|, 4), name);
    NumberThere(data, pos, |name|, 4);
  }

  lemma LeafSound(data: seq<Byte>, pos: nat, n: nat, shapes: map<Name, Shape>)
    requires pos < |data| && ParseLeaf(data, pos, n).Some?
    ensures var g := ParseLeaf(data, pos, n).value;
      Valid(g.item, n, shapes) && data[pos..g.end] == Encode(g.item)
  {
    hide Word, Load, Pow256, EncodeName, NameAt, NumberAt;
    Sizes();
    var g := ParseLeaf(data, pos, n).value;
    Joined(data, pos, pos + 1, g.end);
    assert data[pos..pos + 1] == [data[pos]];
    match data[pos]
    case 1 => NumberFits(data, pos + 1, 8);
    case 5 => NameIs(data, pos + 1);
    case 6 => NameIs(data, pos + 1);
    case 8 => NumberFits(data, pos + 1, 4);
    case _ => assert data[pos + 1..g.end] == [];
  }

  lemma NumberFits(data: seq<Byte>, pos: nat, n: nat)
    requires NumberAt(data, pos, n).Some?
    ensures pos + n <= |data| && NumberAt(data, pos, n).value < Pow256(n)
    ensures data[pos..pos + n] == Word(NumberAt(data, pos, n).value, n)
  {
    NumberIs(data, pos, n);
  }

  lemma HeaderSound(data: seq<Byte>, pos: nat, shapes: map<Name, Shape>)
    requires ParseHeader(data, pos, shapes).Some?
    ensures var h := ParseHeader(data, pos, shapes).value;
      && |h.cls| < NAME_BUFFER && h.hash < U64 && h.indexed < U32
      && data[pos..h.end] == EncodeName(h.cls) + (Word(h.hash, 8) + Word(h.indexed, 4))
  {
    hide Word, Load, Pow256, EncodeName, NameAt, NumberAt;
    Sizes();
    var h := ParseHeader(data, pos, shapes).value;
    NameIs(data, pos);
    var q := h.end - 12;
    NumberFits(data, q, 8);
    NumberFits(data, q + 8, 4);
    Joined(data, q, q + 8, h.end);
    Joined(data, pos, q, h.end);
  }

  lemma {:induction false} ParseSound(data: seq<Byte>, pos: nat, n: nat, shapes: map<Name, Shape>)
    requires Parse(data, pos, n, shapes).Some?
    ensures var g := Parse(data, pos, n, shapes).value;
      Valid(g.item, n, shapes) && data[pos..g.end] == Encode(g.item)
    decreases |data| - pos, 1
  {
    hide Valid, Encode, ParseObject, ParseLeaf;
    if data[pos] == 7 { ObjectSound(data, pos + 1, n, shapes); TagAhead(data, pos, n, shapes); }
    else { LeafSound(data, pos, n, shapes); }
  }

  lemma TagAhead(data: seq<Byte>, pos: nat, n: nat, shapes: map<Name, Shape>)
    requires pos < |data| && data[pos] == 7 && ParseObject(data, pos + 1, n, shapes).Some?
    requires var g := ParseObject(data, pos + 1, n, shapes).value;
      data[pos + 1..g.end] == Body(g.item)
    ensures var g := ParseObject(data, pos + 1, n, shapes).value;
      data[pos..g.end] == Encode(g.item)
  {
    var g := ParseObject(data, pos + 1, n, shapes).value;
    assert g.item.Obj?;
    hide ParseObject, Body;
    Joined(data, pos, pos + 1, g.end);
    assert data[pos..pos + 1] == [7];
  }

  lemma {:induction false} ObjectSound(data: seq<Byte>, pos: nat, n: nat, shapes: map<Name, Shape>)
    requires ParseObject(data, pos, n, shapes).Some?
    ensures var g := ParseObject(data, pos, n, shapes).value;
      Valid(g.item, n, shapes) && data[pos..g.end] == Body(g.item)
    decreases |data| - pos, 0
  {
    hide Word, Load, Pow256, EncodeName, NameAt, NumberAt, ParseHeader, ParseBody, ParsePayload, ParseAll, EncodeBits,
      Valid, ValidAll, FieldCount, EncodeAll, Body;
    var h := ParseHeader(data, pos, shapes).value;
    var shape := shapes[h.cls];
    var b := ParseBody(data, h.end, n + 1, shapes, shape, h.indexed).value;
    var p := ParsePayload(data, b.end, IsFloat(shape)).value;
    var end := b.end + PayloadSize(IsFloat(shape));
    HeaderSound(data, pos, shapes);
    BodySound(data, h.end, n + 1, shapes, shape, h.indexed);
    PayloadSound(data, b.end, IsFloat(shape));
    Joined(data, h.end, b.end, end);
    Joined(data, pos, h.end, end);
    var item := Obj(n, h.cls, h.hash, h.indexed, b.raw, b.items, p);
    BodyIs(item);
    ObjectValid(item, n, shapes);
  }

  lemma ObjectValid(item: Item, n: nat, shapes: map<Name, Shape>)
    requires item.Obj? && item.o == n && |item.cls| < NAME_BUFFER && item.cls in shapes && item.hash < U64 &&
      item.indexed < U32
    requires |item.raw| == (if IsRaw(shapes[item.cls]) then item.indexed else 0)
    requires |item.items| == FieldCount(shapes[item.cls], item.indexed) && ValidAll(item.items, n + 1, shapes)
    requires if IsFloat(shapes[item.cls]) then |item.payload| == 1 && item.payload[0] < U64 else item.payload == []
    ensures Valid(item, n, shapes)
  {
  }

  lemma BodyIs(item: Item)
    requires item.Obj?
    ensures Body(item) == EncodeName(item.cls) + (Word(item.hash, 8) + Word(item.indexed, 4)) +
      (item.raw + EncodeAll(item.items) + EncodeBits(item.payload))
  {
    hide Word, EncodeName, EncodeAll, EncodeBits;
    var a, b, c := EncodeName(item.cls), Word(item.hash, 8), Word(item.indexed, 4);
    var d := item.raw + EncodeAll(item.items) + EncodeBits(item.payload);
    assert item.raw + (EncodeAll(item.items) + EncodeBits(item.payload)) == d;
    assert a + (b + (c + d)) == a + (b + c) + d;
  }

  lemma PayloadSound(data: seq<Byte>, pos: nat, isFloat: bool)
    requires ParsePayload(data, pos, isFloat).Some? && pos <= |data|
    ensures var p := ParsePayload(data, pos, isFloat).value;
      && pos + PayloadSize(isFloat) <= |data| && data[pos..pos + PayloadSize(isFloat)] == EncodeBits(p)
      && (if isFloat then |p| == 1 && p[0] < U64 else p == [])
  {
    hide Word, Load, Pow256;
    Sizes();
    if isFloat { NumberFits(data, pos, 8); }
  }

  lemma {:induction false} BodySound(data: seq<Byte>, pos: nat, n: nat, shapes: map<Name, Shape>, shape: Shape,
      indexed: nat)
    requires pos <= |data| && ParseBody(data, pos, n, shapes, shape, indexed).Some?
    ensures var b := ParseBody(data, pos, n, shapes, shape, indexed).value;
      && |b.raw| == (if IsRaw(shape) then indexed else 0) && |b.items| == FieldCount(shape, indexed)
      && ValidAll(b.items, n, shapes) && data[pos..b.end] == b.raw + EncodeAll(b.items)
    decreases |data| - pos, FieldCount(shape, indexed) + 2
  {
    hide ParseAll;
    var b := ParseBody(data, pos, n, shapes, shape, indexed).value;
    if IsRaw(shape) {
      assert data[pos..b.end] + [] == data[pos..b.end];
    } else {
      AllSound(data, pos, n, shapes, FieldCount(shape, indexed));
      hide EncodeAll, ValidAll;
      assert [] + EncodeAll(b.items) == EncodeAll(b.items);
    }
  }

  lemma {:induction false} AllSound(data: seq<Byte>, pos: nat, n: nat, shapes: map<Name, Shape>, count: nat)
    requires pos <= |data| && ParseAll(data, pos, n, shapes, count).Some?
    ensures var g := ParseAll(data, pos, n, shapes, count).value;
      |g.items| == count && ValidAll(g.items, n, shapes) && data[pos..g.end] == EncodeAll(g.items)
    decreases |data| - pos, count + 1
  {
    hide Parse, Valid, Encode;
    if count == 0 {
      assert data[pos..pos] == [];
    } else {
      var f := Parse(data, pos, n, shapes).value;
      ParseSound(data, pos, n, shapes);
      AllSound(data, f.end, n + Count(f.item), shapes, count - 1);
      var rest := ParseAll(data, f.end, n + Count(f.item), shapes, count - 1).value;
      Joined(data, pos, f.end, rest.end);
      var items := [f.item] + rest.items;
      assert items[1..] == rest.items;
    }
  }

  // ----- and every message is read -----

  lemma LeafComplete(data: seq<Byte>, pos: nat, n: nat, shapes: map<Name, Shape>, item: Item)
    requires !item.Obj? && Valid(item, n, shapes) && At(data, pos, Encode(item))
    ensures Parse(data, pos, n, shapes) == Some(Got(item, pos + |Encode(item)|))
  {
    hide Word, Load, Pow256, EncodeName, NameAt, NumberAt;
    Sizes();
    AtSplit(data, pos, [Tag(item)], Body(item));
    TagThere(data, pos, Tag(item));
    match item
    case Int(bits) => NumberThere(data, pos + 1, bits, 8);
    case Back(id) => NumberThere(data, pos + 1, id, 4);
    case Sym(_, name) => NameThere(data, pos + 1, name);
    case Cls(_, name) => NameThere(data, pos + 1, name);
    case _ =>
  }

  lemma HeaderComplete(data: seq<Byte>, pos: nat, shapes: map<Name, Shape>, cls: Name, hash: nat, indexed: nat)
    requires |cls| < NAME_BUFFER && cls in shapes && hash < U64 && indexed < U32
    requires At(data, pos, EncodeName(cls) + (Word(hash, 8) + Word(indexed, 4)))
    ensures ParseHeader(data, pos, shapes) == Some(Header(cls, hash, indexed, pos + |EncodeName(cls)| + 12))
  {
    hide Word, Load, Pow256, EncodeName, NameAt, NumberAt, At;
    Sizes();
    AtSplit(data, pos, EncodeName(cls), Word(hash, 8) + Word(indexed, 4));
    var q := pos + |EncodeName(cls)|;
    AtSplit(data, q, Word(hash, 8), Word(indexed, 4));
    NameThere(data, pos, cls);
    NumberThere(data, q, hash, 8);
    NumberThere(data, q + 8, indexed, 4);
  }

  lemma TagThere(data: seq<Byte>, pos: nat, tag: Byte)
    requires At(data, pos, [tag])
    ensures pos < |data| && data[pos] == tag
  {
    assert data[pos..pos + 1][0] == tag;
  }

  lemma {:induction false} ParseComplete(data: seq<Byte>, pos: nat, n: nat, shapes: map<Name, Shape>, item: Item)
    requires Valid(item, n, shapes) && At(data, pos, Encode(item))
    ensures Parse(data, pos, n, shapes) == Some(Got(item, pos + |Encode(item)|))
    decreases item, 1
  {
    hide ParseObject, ParseLeaf, Valid, Body, At;
    if item.Obj? {
      AtSplit(data, pos, [7], Body(item));
      TagThere(data, pos, 7);
      ObjectComplete(data, pos + 1, n, shapes, item);
    } else {
      LeafComplete(data, pos, n, shapes, item);
    }
  }

  lemma {:induction false} ObjectComplete(data: seq<Byte>, pos: nat, n: nat, shapes: map<Name, Shape>, item: Item)
    requires item.Obj? && Valid(item, n, shapes) && At(data, pos, Body(item))
    ensures ParseObject(data, pos, n, shapes) == Some(Got(item, pos + |Body(item)|))
    decreases item, 0
  {
    hide Word, Load, Pow256, EncodeName, NameAt, NumberAt, ParseHeader, ParseBody, ParsePayload, ParseAll, At,
      EncodeAll, EncodeBits, Body, FieldCount;
    var shape := shapes[item.cls];
    var head := EncodeName(item.cls) + (Word(item.hash, 8) + Word(item.indexed, 4));
    var body := item.raw + EncodeAll(item.items);
    BodyIs(item);
    AtSplit(data, pos, head, body + EncodeBits(item.payload));
    var q := pos + |head|;
    AtSplit(data, q, body, EncodeBits(item.payload));
    HeaderComplete(data, pos, shapes, item.cls, item.hash, item.indexed);
    BodyComplete(data, q, n + 1, shapes, shape, item);
    PayloadComplete(data, q + |body|, IsFloat(shape), item.payload);
  }

  lemma PayloadComplete(data: seq<Byte>, pos: nat, isFloat: bool, payload: seq<nat>)
    requires if isFloat then |payload| == 1 && payload[0] < U64 else payload == []
    requires At(data, pos, EncodeBits(payload))
    ensures ParsePayload(data, pos, isFloat) == Some(payload) && PayloadSize(isFloat) == |EncodeBits(payload)|
  {
    hide Word, Load, Pow256;
    Sizes();
    if isFloat {
      NumberThere(data, pos, payload[0], 8);
      assert payload == [payload[0]];
    }
  }

  lemma {:induction false} BodyComplete(data: seq<Byte>, pos: nat, n: nat, shapes: map<Name, Shape>, shape: Shape,
      item: Item)
    requires item.Obj? && |item.raw| == (if IsRaw(shape) then item.indexed else 0)
    requires |item.items| == FieldCount(shape, item.indexed) && ValidAll(item.items, n, shapes)
    requires At(data, pos, item.raw + EncodeAll(item.items))
    ensures ParseBody(data, pos, n, shapes, shape, item.indexed) ==
      Some(GotBody(item.raw, item.items, pos + |item.raw + EncodeAll(item.items)|))
    decreases item.items, 1
  {
    hide ParseAll, ValidAll;
    AtSplit(data, pos, item.raw, EncodeAll(item.items));
    if IsRaw(shape) {
      assert item.items == [] && EncodeAll(item.items) == [];
    } else {
      assert item.raw == [];
      AllComplete(data, pos, n, shapes, item.items);
    }
  }

  lemma {:induction false} AllComplete(data: seq<Byte>, pos: nat, n: nat, shapes: map<Name, Shape>, items: seq<Item>)
    requires ValidAll(items, n, shapes) && At(data, pos, EncodeAll(items))
    ensures ParseAll(data, pos, n, shapes, |items|) == Some(GotAll(items, pos + |EncodeAll(items)|))
    decreases items, 0
  {
    hide Parse, Valid, Encode;
    if items != [] {
      AtSplit(data, pos, Encode(items[0]), EncodeAll(items[1..]));
      ParseComplete(data, pos, n, shapes, items[0]);
      AllComplete(data, pos + |Encode(items[0])|, n + Count(items[0]), shapes, items[1..]);
      assert [items[0]] + items[1..] == items;
    }
  }
}
