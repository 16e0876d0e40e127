/** The byte form of instructions (vm/compiler/Bytecodes.h): emitters, the decoding iterator,
    and the patching of a label's four bytes. */
module BytecodeStream {
  import opened Options
  import opened BytecodeMachine
  import opened Relocation
  import opened Words

  const I32 := 0x1_0000_0000

  function Unsigned(d: int): nat
    requires -0x8000_0000 <= d < 0x8000_0000
  {
    if d < 0 then d + I32 else d
  }

  function Signed(u: nat): int
  {
    if u >= 0x8000_0000 then u - I32 else u
  }

  lemma SignedUnsigned(d: int)
    requires -0x8000_0000 <= d < 0x8000_0000
    ensures Unsigned(d) < Pow256(4) && Signed(Unsigned(d)) == d
  {
    assert Pow256(4) == 256 * (256 * (256 * (256 * Pow256(0))));
  }

  // ----- the byte form -----

  function Tag(op: Operand): Byte
  {
    match op
    case Immediate(_) => 0
    case Nil => 1
    case True => 2
    case False => 3
    case ThisContext => 4
    case Temp(_) => 5
    case Arg(_) => 6
    case Super => 7
    case ContextVar(_, _) => 8
    case InstVar(_) => 9
    case InstVarOf(_, _) => 10
    case Literal(_) => 11
    case Assoc(_) => 12
    case Block(_) => 13
  }

  /** The fields fit their bytes. */
  ghost predicate Fits(op: Operand)
  {
    match op
    case Immediate(v) => 0 <= v.id < Pow256(8)
    case Temp(i) => i < Pow256(2)
    case Arg(i) => i < Pow256(2)
    case ContextVar(i, level) => i < Pow256(2) && level < 256
    case InstVar(i) => i < Pow256(2)
    case InstVarOf(slot, t) => slot < Pow256(2) && t < Pow256(2)
    case Literal(i) => i < Pow256(2)
    case Assoc(i) => i < Pow256(2)
    case Block(i) => i < Pow256(2)
    case _ => true
  }

  function OperandFields(op: Operand): (s: seq<Byte>)
    requires op.Immediate? ==> op.value.id >= 0
    requires op.ContextVar? ==> op.level < 256
  {
    match op
    case Immediate(v) => Word(v.id, 8)
    case Temp(i) => Word(i, 2)
    case Arg(i) => Word(i, 2)
    case ContextVar(i, level) => Word(i, 2) + [level]
    case InstVar(i) => Word(i, 2)
    case InstVarOf(slot, t) => Word(slot, 2) + [5] + Word(t, 2)
    case Literal(i) => Word(i, 2)
    case Assoc(i) => Word(i, 2)
    case Block(i) => Word(i, 2)
    case _ => []
  }

  ghost function EncodeOperand(op: Operand): (s: seq<Byte>)
    requires Fits(op)
    ensures |s| == OperandSize(op)
  {
    [Tag(op)] + OperandFields(op)
  }

  ghost predicate AllFit(ops: seq<Operand>)
  {
    forall i {:trigger ops[i]} :: 0 <= i < |ops| ==> Fits(ops[i])
  }

  /** Operands in stream order. */
  ghost function EncodeOperands(ops: seq<Operand>): (s: seq<Byte>)
    requires AllFit(ops)
    ensures |s| == OperandsSize(ops)
  {
    if ops == [] then [] else EncodeOperand(ops[0]) + EncodeOperands(ops[1..])
  }

  ghost predicate DispFits(d: int)
  {
    -0x8000_0000 <= d < 0x8000_0000
  }

  ghost predicate InstrFits(i: Instr)
  {
    match i
    case Copy(s, d) => Fits(s) && Fits(d)
    case Send(sel, r, args, store) => sel < Pow256(2) && |args| < 256 && Fits(r) && AllFit(args) &&
      (store.Some? ==> Fits(store.value))
    case Return(op) => Fits(op)
    case OuterReturn(op) => Fits(op)
    case Jump(d) => DispFits(d)
    case JumpNotMemberOf(c, op, d) => c < Pow256(2) && Fits(op) && DispFits(d)
  }

  ghost function Encode(i: Instr): (s: seq<Byte>)
    requires InstrFits(i)
    ensures |s| == Size(i)
  {
    match i
    case Copy(s, d) => [0] + EncodeOperand(s) + EncodeOperand(d)
    case Send(sel, r, args, None) => [1] + Word(sel, 2) + [|args|] + EncodeOperand(r) + EncodeOperands(args)
    case Send(sel, r, args, Some(d)) =>
      [2] + Word(sel, 2) + [|args|] + EncodeOperand(r) + EncodeOperands(args) + EncodeOperand(d)
    case Return(op) => [3] + EncodeOperand(op)
    case OuterReturn(op) => [4] + EncodeOperand(op)
    case Jump(d) => [5] + Word(Unsigned(d), 4)
    case JumpNotMemberOf(c, op, d) => [6] + Word(c, 2) + EncodeOperand(op) + Word(Unsigned(d), 4)
  }

  ghost predicate CodeFits(code: Code)
  {
    forall i {:trigger code[i]} :: 0 <= i < |code| ==> InstrFits(code[i])
  }

  ghost function EncodeAll(code: Code): (s: seq<Byte>)
    requires CodeFits(code)
    ensures |s| == Offset(code, |code|)
  {
    if code == [] then [] else
      SameOffsets(code[..|code| - 1], code, |code| - 1, |code| - 1);
      EncodeAll(code[..|code| - 1]) + Encode(code[|code| - 1])
  }

  // ----- emitting -----

  class Emitter {
    var bytes: seq<Byte>

    constructor ()
      ensures bytes == []
    {
      bytes := [];
    }

    method EmitOperand(op: Operand)
      requires Fits(op)
      modifies this
      ensures bytes == old(bytes) + EncodeOperand(op)
    {
      hide Word, Pow256;
      bytes := bytes + [Tag(op)] + OperandFields(op);
    }

    /** Arguments in source order, emitted last first. */
    method EmitArgs(args: seq<Operand>)
      requires AllFit(Reverse(args))
      modifies this
      ensures bytes == old(bytes) + EncodeOperands(Reverse(args))
    {
      hide Fits, EncodeOperand, Reverse, OperandSize, OperandsSize;
      var i := |args|;
      ghost var stream := Reverse(args);
      assert stream[..0] == [];
      while i > 0
        invariant 0 <= i <= |args|
        invariant AllFit(stream[..|args| - i]) && bytes == old(bytes) + EncodeOperands(stream[..|args| - i])
      {
        hide Fits, EncodeOperand, EncodeOperands, Reverse, OperandSize, OperandsSize;
        i := i - 1;
        assert args[i] == stream[|args| - 1 - i];
        EncodeSnoc(stream, |args| - 1 - i);
        EmitOperand(args[i]);
      }
      assert stream[..|args|] == stream;
    }

    /** bytecodeSend and bytecodeSendWithStore. */
    method EmitSend(selector: nat, receiver: Operand, args: seq<Operand>, store: Option<Operand>)
      requires InstrFits(Send(selector, receiver, Reverse(args), store))
      modifies this
      ensures bytes == old(bytes) + Encode(Send(selector, receiver, Reverse(args), store))
    {
      hide Word, Pow256, Fits, EncodeOperand, EncodeOperands, Reverse, AllFit, OperandSize, OperandsSize;
      ghost var before, i := bytes, Send(selector, receiver, Reverse(args), store);
      bytes := bytes + ([if store.Some? then 2 else 1] + Word(selector, 2) + [|args|]);
      EmitOperand(receiver);
      EmitArgs(args);
      if store.Some? { EmitOperand(store.value); }
      SendBytes(before, bytes, i);
    }

    method EmitInstr(i: Instr)
      requires InstrFits(i)
      modifies this
      ensures bytes == old(bytes) + Encode(i)
    {
      hide Word, Pow256, Fits, EncodeOperand, Size, OperandSize, Unsigned;
      ghost var before := bytes;
      match i
      case Copy(s, d) =>
        bytes := bytes + [0];
        EmitOperand(s);
        EmitOperand(d);
        Regroup(before, [0], EncodeOperand(s), EncodeOperand(d), []);
      case Send(sel, r, args, store) =>
        ReverseTwice(args);
        EmitSend(sel, r, Reverse(args), store);
      case Return(op) =>
        bytes := bytes + [3];
        EmitOperand(op);
      case OuterReturn(op) =>
        bytes := bytes + [4];
        EmitOperand(op);
      case Jump(d) => bytes := bytes + [5] + Word(Unsigned(d), 4);
      case JumpNotMemberOf(c, op, d) =>
        bytes := bytes + [6] + Word(c, 2);
        EmitOperand(op);
        bytes := bytes + Word(Unsigned(d), 4);
        Regroup(before, [6], Word(c, 2), EncodeOperand(op), Word(Unsigned(d), 4));
    }
  }

  lemma SendBytes(before: seq<Byte>, after: seq<Byte>, i: Instr)
    requires i.Send? && InstrFits(i)
    requires after == before + ([if i.store.Some? then 2 else 1] + Word(i.selector, 2) + [|i.args|]) +
      EncodeOperand(i.receiver)
      + EncodeOperands(i.args) + if i.store.Some? then EncodeOperand(i.store.value) else []
    ensures after == before + Encode(i)
  {
    hide Word, Pow256, Fits, EncodeOperand, EncodeOperands, AllFit, OperandSize, OperandsSize;
    var head := [if i.store.Some? then 2 else 1] + Word(i.selector, 2) + [|i.args|];
    Regroup(before, head, EncodeOperand(i.receiver), EncodeOperands(i.args), if i.store.Some?
      then EncodeOperand(i.store.value) else []);
  }

  lemma Regroup<T>(b: seq<T>, h: seq<T>, r: seq<T>, a: seq<T>, l: seq<T>)
    ensures b + h + r + a + l == b + (h + r + a + l)
    ensures l == [] ==> h + r + a + l == h + r + a
  {}

  lemma {:induction false} EncodeSnoc(ops: seq<Operand>, k: nat)
    requires AllFit(ops) && k < |ops|
    ensures AllFit(ops[..k]) && AllFit(ops[..k + 1])
    ensures EncodeOperands(ops[..k + 1]) == EncodeOperands(ops[..k]) + EncodeOperand(ops[k])
    decreases k
  {
    hide Fits, EncodeOperand;
    if k == 0 {
      assert ops[..1] == [ops[0]] && ops[..1][1..] == [] && ops[..0] == [];
    } else {
      EncodeSnoc(ops[1..], k - 1);
      assert ops[..k + 1][1..] == ops[1..][..k] && ops[..k][1..] == ops[1..][..k - 1];
    }
  }

  // ----- decoding -----

  /** The iterator. Decoding at a position where an instruction was emitted gives it back and
      moves past it. */
  class Decoder {
    const bytes: seq<Byte>
    var p: nat

    constructor (bytes: seq<Byte>)
      ensures this.bytes == bytes && p == 0
    {
      this.bytes := bytes;
      p := 0;
    }

    method NextWord(n: nat, ghost v: nat) returns (r: nat)
      requires v < Pow256(n) && At(bytes, p, Word(v, n))
      modifies this
      ensures r == v && p == old(p) + n
    {
      hide Word, Pow256, Load;
      LoadWord(v, n);
      r := Load(bytes[p..p + n]);
      p := p + n;
    }

    method NextByte(ghost b: Byte) returns (r: Byte)
      requires At(bytes, p, [b])
      modifies this
      ensures r == b && p == old(p) + 1
    {
      assert bytes[p..p + 1] == [b];
      r := bytes[p];
      p := p + 1;
    }

    method NextOperand(ghost op: Operand) returns (r: Operand)
      requires Fits(op) && At(bytes, p, EncodeOperand(op))
      modifies this
      ensures r == op && p == old(p) + OperandSize(op)
    {
      hide Word, Pow256, At;
      AtSplit(bytes, p, [Tag(op)], OperandFields(op));
      var tag := NextByte(Tag(op));
      match tag {
        case 0 =>
          var v := NextWord(8, op.value.id);
          r := Immediate(Value(v));
        case 8 =>
          AtSplit(bytes, p, Word(op.index, 2), [op.level]);
          var i := NextWord(2, op.index);
          var level := NextByte(op.level);
          r := ContextVar(i, level);
        case 10 => r := NextInstVarOf(op);
        case 1 => r := Nil;
        case 2 => r := True;
        case 3 => r := False;
        case 4 => r := ThisContext;
        case 7 => r := Super;
        case _ => r := NextIndexed(tag, op);
      }
    }

    method NextInstVarOf(ghost op: Operand) returns (r: Operand)
      requires op.InstVarOf? && Fits(op) && At(bytes, p, Word(op.slot, 2) + [5] + Word(op.temp, 2))
      modifies this
      ensures r == op && p == old(p) + 5
    {
      hide Word, Pow256, At;
      AtSplit(bytes, p, Word(op.slot, 2) + [5], Word(op.temp, 2));
      AtSplit(bytes, p, Word(op.slot, 2), [5]);
      var slot := NextWord(2, op.slot);
      var _ := NextByte(5);
      var t := NextWord(2, op.temp);
      r := InstVarOf(slot, t);
    }

    method NextIndexed(tag: Byte, ghost op: Operand) returns (r: Operand)
      requires op.Temp? || op.Arg? || op.InstVar? || op.Literal? || op.Assoc? || op.Block?
      requires tag == Tag(op) && Fits(op) && At(bytes, p, Word(op.index, 2))
      modifies this
      ensures r == op && p == old(p) + 2
    {
      hide Word, At;
      var i := NextWord(2, op.index);
      match tag
      case 5 => r := Temp(i);
      case 6 => r := Arg(i);
      case 9 => r := InstVar(i);
      case 11 => r := Literal(i);
      case 12 => r := Assoc(i);
      case _ => r := Block(i);
    }

    method NextOperands(n: nat, ghost ops: seq<Operand>) returns (r: seq<Operand>)
      requires n == |ops| && AllFit(ops) && At(bytes, p, EncodeOperands(ops))
      modifies this
      ensures r == ops && p == old(p) + OperandsSize(ops)
    {
      hide At, Fits, EncodeOperand, OperandSize;
      r := [];
      var i := 0;
      while i < n
        invariant 0 <= i <= n && r == ops[..i] && At(bytes, p, EncodeOperands(ops[i..]))
        invariant p + OperandsSize(ops[i..]) == old(p) + OperandsSize(ops)
      {
        hide At, Fits, EncodeOperand, OperandSize;
        assert ops[i..][1..] == ops[i + 1..];
        AtSplit(bytes, p, EncodeOperand(ops[i]), EncodeOperands(ops[i + 1..]));
        var op := NextOperand(ops[i]);
        r := r + [op];
        i := i + 1;
      }
    }

    method NextDisp(ghost d: int) returns (r: int)
      requires DispFits(d) && At(bytes, p, Word(Unsigned(d), 4))
      modifies this
      ensures r == d && p == old(p) + 4
    {
      hide Word, Pow256, At;
      SignedUnsigned(d);
      var u := NextWord(4, Unsigned(d));
      r := Signed(u);
    }

    method NextSend(tag: Byte, ghost i: Instr) returns (r: Instr)
      requires i.Send? && InstrFits(i) && tag == (if i.store.Some? then 2 else 1) as Byte
      requires At(bytes, p, Encode(i)[1..])
      modifies this
      ensures r == i && p == old(p) + Size(i) - 1
    {
      hide Word, Pow256, At, Fits, EncodeOperand, EncodeOperands, OperandsSize, OperandSize;
      ghost var sel, n, recv, args :=
        Word(i.selector, 2), [|i.args| as Byte], EncodeOperand(i.receiver), EncodeOperands(i.args);
      ghost var last := if i.store.Some? then EncodeOperand(i.store.value) else [];
      assert Encode(i)[1..] == sel + (n + (recv + (args + last)));
      AtSplit(bytes, p, sel, n + (recv + (args + last)));
      var selector := NextWord(2, i.selector);
      AtSplit(bytes, p, n, recv + (args + last));
      var argsSize := NextByte(|i.args|);
      AtSplit(bytes, p, recv, args + last);
      var receiver := NextOperand(i.receiver);
      AtSplit(bytes, p, args, last);
      var operands := NextOperands(argsSize, i.args);
      if tag == 2 {
        var store := NextOperand(i.store.value);
        r := Send(selector, receiver, operands, Some(store));
      } else {
        r := Send(selector, receiver, operands, None);
      }
    }

    method NextInstr(ghost i: Instr) returns (r: Instr)
      requires InstrFits(i) && At(bytes, p, Encode(i))
      modifies this
      ensures r == i && p == old(p) + Size(i)
    {
      hide Word, Pow256, At, Fits, EncodeOperand, EncodeOperands, OperandSize, OperandsSize;
      ghost var e := Encode(i);
      assert e == [e[0]] + e[1..];
      AtSplit(bytes, p, [e[0]], e[1..]);
      var tag := NextByte(e[0]);
      match tag {
        case 0 =>
          assert e[1..] == EncodeOperand(i.source) + EncodeOperand(i.dest);
          AtSplit(bytes, p, EncodeOperand(i.source), EncodeOperand(i.dest));
          var s := NextOperand(i.source);
          var d := NextOperand(i.dest);
          r := Copy(s, d);
        case 1 => r := NextSend(1, i);
        case 2 => r := NextSend(2, i);
        case 3 =>
          assert e[1..] == EncodeOperand(i.operand);
          var op := NextOperand(i.operand);
          r := Return(op);
        case 4 =>
          assert e[1..] == EncodeOperand(i.operand);
          var op := NextOperand(i.operand);
          r := OuterReturn(op);
        case 5 =>
          assert e[1..] == Word(Unsigned(i.disp), 4);
          var d := NextDisp(i.disp);
          r := Jump(d);
        case _ => r := NextGuard(i);
      }
    }

    method NextGuard(ghost i: Instr) returns (r: Instr)
      requires i.JumpNotMemberOf? && InstrFits(i) && At(bytes, p, Encode(i)[1..])
      modifies this
      ensures r == i && p == old(p) + Size(i) - 1
    {
      hide Word, Pow256, At, Fits, EncodeOperand, OperandSize;
      ghost var c, o, d := Word(i.class_, 2), EncodeOperand(i.operand), Word(Unsigned(i.disp), 4);
      assert Encode(i)[1..] == c + (o + d);
      AtSplit(bytes, p, c, o + d);
      var k := NextWord(2, i.class_);
      AtSplit(bytes, p, o, d);
      var op := NextOperand(i.operand);
      var disp := NextDisp(i.disp);
      r := JumpNotMemberOf(k, op, disp);
    }
  }

  /** Emitting a stream and walking it with the iterator gives the instructions back. */
  method RoundTrip(code: Code) returns (bytes: seq<Byte>, out: Code)
    requires CodeFits(code)
    ensures bytes == EncodeAll(code) && out == code
  {
    hide InstrFits, Encode, Size;
    var emitter := new Emitter();
    for k := 0 to |code|
      invariant emitter.bytes == EncodeAll(code[..k])
    {
      hide InstrFits, Encode, Size;
      emitter.EmitInstr(code[k]);
      assert code[..k + 1][..k] == code[..k];
    }
    assert code[..|code|] == code;
    bytes := emitter.bytes;
    out := Decode(bytes, code);
  }

  /** The decoding walk on its own. */
  method Decode(bytes: seq<Byte>, ghost code: Code) returns (out: Code)
    requires CodeFits(code) && bytes == EncodeAll(code)
    ensures out == code
  {
    hide InstrFits, Encode, Size, EncodeAll, Offset;
    var decoder := new Decoder(bytes);
    out := [];
    OffsetZero(code);
    while decoder.p < |bytes|
      invariant |out| <= |code| && out == code[..|out|] && decoder.p == Offset(code, |out|) && decoder.bytes == bytes
      decreases |code| - |out|
    {
      hide InstrFits, Encode, Size, EncodeAll, Offset;
      EncodedAt(code, |out|);
      NextOffset(code, |out|);
      var i := decoder.NextInstr(code[|out|]);
      out := out + [i];
    }
    if |out| < |code| { OffsetMono(code, |out|, |code|); }
  }

  lemma OffsetZero(code: Code)
    ensures Offset(code, 0) == 0
  {}

  lemma NextOffset(code: Code, k: nat)
    requires k < |code|
    ensures Offset(code, k + 1) == Offset(code, k) + Size(code[k])
  {}

  /** Instruction k's bytes are found at its offset. */
  lemma {:induction false} EncodedAt(code: Code, k: nat)
    requires CodeFits(code) && k < |code|
    ensures At(EncodeAll(code), Offset(code, k), Encode(code[k]))
    decreases |code|
  {
    hide InstrFits, Encode, Size, Offset;
    var n := |code| - 1;
    var front := code[..n];
    SameOffsets(front, code, n, n);
    SameOffsets(front, code, n, k);
    if k == n {
      assert EncodeAll(code)[|EncodeAll(front)|..] == Encode(code[n]);
    } else {
      EncodedAt(front, k);
      assert EncodeAll(code) == EncodeAll(front) + Encode(code[n]);
    }
  }

  // ----- patching -----

  function Overwrite(bytes: seq<Byte>, at: nat, w: seq<Byte>): (r: seq<Byte>)
    requires at + |w| <= |bytes|
    ensures |r| == |bytes|
  {
    bytes[..at] + w + bytes[at + |w|..]
  }

  lemma PatchedJump(i: Instr, d: int)
    requires IsJump(i) && InstrFits(i) && DispFits(d)
    ensures InstrFits(WithDisp(i, d))
    ensures Encode(WithDisp(i, d)) == Overwrite(Encode(i), Size(i) - 4, Word(Unsigned(d), 4))
  {
    hide Word, Pow256, EncodeOperand, OperandSize;
    var a, b := Encode(WithDisp(i, d)), Encode(i);
    assert a[..Size(i) - 4] == b[..Size(i) - 4] && a[Size(i) - 4..] == Word(Unsigned(d), 4);
  }

  lemma PatchedLast(code: Code, d: int)
    requires CodeFits(code) && code != [] && IsJump(code[|code| - 1]) && DispFits(d)
    ensures var j := |code| - 1;
      && CodeFits(code[j := WithDisp(code[j], d)]) && 4 <= Offset(code, j + 1) <= |EncodeAll(code)|
      && EncodeAll(code[j := WithDisp(code[j], d)]) ==
        Overwrite(EncodeAll(code), Offset(code, j + 1) - 4, Word(Unsigned(d), 4))
  {
    hide Word, Pow256, InstrFits, Encode, Offset;
    var n := |code| - 1;
    var front, last := code[..n], code[n];
    var patched := code[n := WithDisp(last, d)];
    PatchedJump(last, d);
    SameOffsets(front, code, n, n);
    NextOffset(code, n);
    assert patched[..n] == front;
    OverwriteAfter(EncodeAll(front), Encode(last), Size(last) - 4, Word(Unsigned(d), 4));
  }

  /** asmLabelBind writes four bytes; the stream then decodes to the same instructions with
      that one jump's displacement replaced. */
  lemma {:induction false} PatchedStream(code: Code, j: nat, d: int)
    requires CodeFits(code) && j < |code| && IsJump(code[j]) && DispFits(d)
    ensures CodeFits(code[j := WithDisp(code[j], d)])
    ensures 4 <= Offset(code, j + 1) <= |EncodeAll(code)|
    ensures EncodeAll(code[j := WithDisp(code[j], d)]) ==
      Overwrite(EncodeAll(code), Offset(code, j + 1) - 4, Word(Unsigned(d), 4))
    decreases |code|
  {
    hide Word, Pow256, InstrFits, Encode, Offset, Size, WithDisp;
    var n := |code| - 1;
    if j == n {
      PatchedLast(code, d);
    } else {
      var front, last := code[..n], code[n];
      OffsetMono(code, j + 1, n + 1);
      PatchedStream(front, j, d);
      SameOffsets(front, code, n, j + 1);
      var patched := code[j := WithDisp(code[j], d)];
      assert patched[..n] == front[j := WithDisp(front[j], d)];
      OverwriteBefore(EncodeAll(front), Encode(last), Offset(code, j + 1) - 4, Word(Unsigned(d), 4));
    }
  }

  lemma OverwriteAfter(a: seq<Byte>, b: seq<Byte>, at: nat, w: seq<Byte>)
    requires at + |w| <= |b|
    ensures a + Overwrite(b, at, w) == Overwrite(a + b, |a| + at, w)
  {}

  lemma OverwriteBefore(a: seq<Byte>, b: seq<Byte>, at: nat, w: seq<Byte>)
    requires at + |w| <= |a|
    ensures Overwrite(a, at, w) + b == Overwrite(a + b, at, w)
  {}
}
