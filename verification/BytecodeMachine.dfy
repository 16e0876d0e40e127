/** The bytecode language of vm/compiler/Bytecodes.h and its execution. Instruction sizes
    are those of the byte encoding, jumps carry byte displacements relative to the end of
    the jump. A send is one opaque step of the surrounding world. */
module BytecodeMachine {

  import opened Options

  datatype Value = Value(id: int)

  const NIL := Value(0)
  const TRUE := Value(1)
  const FALSE := Value(2)

  // Frame slots (vm/compiler/Compiler.h): the context, then self, then arguments, then temporaries.
  const CONTEXT_INDEX := 0
  const SELF_INDEX := 1

  datatype Operand =
    | Immediate(value: Value)
    | Nil
    | True
    | False
    | ThisContext
    | Temp(index: nat)
    | Arg(index: nat)
    | Super
    | ContextVar(index: nat, level: nat)
    | InstVar(index: nat)
    | InstVarOf(slot: nat, temp: nat) // the inliner's form: an absolute slot of the object in a temporary
    | Literal(index: nat)
    | Assoc(index: nat)
    | Block(index: nat)

  /** Arguments are kept in stream order, which is reversed source order. */
  datatype Instr =
    | Copy(source: Operand, dest: Operand)
    | Send(selector: nat, receiver: Operand, args: seq<Operand>, store: Option<Operand>)
    | Return(operand: Operand)
    | OuterReturn(operand: Operand)
    | Jump(disp: int)
    | JumpNotMemberOf(class_: nat, operand: Operand, disp: int)

  type Code = seq<Instr>

  function Reverse<T>(s: seq<T>): (r: seq<T>)
    ensures |r| == |s|
    ensures forall i {:trigger r[i]} :: 0 <= i < |s| ==> r[i] == s[|s| - 1 - i]
  {
    if s == [] then [] else Reverse(s[1..]) + [s[0]]
  }

  lemma ReverseTwice<T>(s: seq<T>)
    ensures Reverse(Reverse(s)) == s
  {
    var r := Reverse(s);
    var rr := Reverse(r);
    forall i | 0 <= i < |s| ensures rr[i] == s[i] { assert rr[i] == r[|s| - 1 - i]; }
  }

  // ----- sizes and offsets -----

  function OperandSize(op: Operand): (n: nat)
    ensures n >= 1
  {
    match op
    case Immediate(_) => 9
    case Temp(_) => 3
    case Arg(_) => 3
    case InstVar(_) => 3
    case Literal(_) => 3
    case Assoc(_) => 3
    case Block(_) => 3
    case InstVarOf(_, _) => 6
    case ContextVar(_, _) => 4
    case _ => 1
  }

  function OperandsSize(ops: seq<Operand>): nat
  {
    if ops == [] then 0 else OperandSize(ops[0]) + OperandsSize(ops[1..])
  }

  function Size(i: Instr): (n: nat)
    ensures n >= 1
  {
    match i
    case Copy(s, d) => 1 + OperandSize(s) + OperandSize(d)
    case Send(_, r, args, store) =>
      4 + OperandSize(r) + OperandsSize(args) + (if store.Some? then OperandSize(store.value) else 0)
    case Return(op) => 1 + OperandSize(op)
    case OuterReturn(op) => 1 + OperandSize(op)
    case Jump(_) => 5
    case JumpNotMemberOf(_, op, _) => 7 + OperandSize(op)
  }

  /** Byte offset at which instruction j starts; Offset(code, |code|) is the stream size. */
  function Offset(code: Code, j: nat): nat
    requires j <= |code|
  {
    if j == 0 then 0 else Offset(code, j - 1) + Size(code[j - 1])
  }

  lemma {:induction false} OffsetMono(code: Code, i: nat, j: nat)
    requires i < j <= |code|
    ensures Offset(code, i) < Offset(code, j)
  {
    if i < j - 1 { OffsetMono(code, i, j - 1); }
  }

  predicate IsJump(i: Instr)
  {
    i.Jump? || i.JumpNotMemberOf?
  }

  /** Instruction j is a jump that lands on the start of instruction t (or the end). */
  ghost predicate JumpsTo(code: Code, j: nat, t: nat)
  {
    && j < |code| && t <= |code|
    && IsJump(code[j])
    && Offset(code, j + 1) + code[j].disp == Offset(code, t)
  }

  ghost function Target(code: Code, j: nat): (r: Option<nat>)
    ensures r.Some? ==> JumpsTo(code, j, r.value)
  {
    if exists t: nat :: JumpsTo(code, j, t) then
      var t: nat :| JumpsTo(code, j, t); Some(t)
    else None
  }

  lemma TargetIs(code: Code, j: nat, t: nat)
    requires JumpsTo(code, j, t)
    ensures Target(code, j) == Some(t)
  {
    var t' := Target(code, j).value;
    assert JumpsTo(code, j, t');
    if t < t' { OffsetMono(code, t, t'); } else if t' < t { OffsetMono(code, t', t); }
  }

  // ----- state -----

  datatype Event = Event(id: int)

  /** Object slots, the trace of sends so far, and everything else a send can see or change. */
  datatype Heap = Heap(slots: map<(Value, nat), Value>, trace: seq<Event>, rest: int)

  const ASSOC_VALUE: nat := 1

  function ReadSlot(h: Heap, o: Value, i: nat): Value
  {
    if (o, i) in h.slots then h.slots[(o, i)] else NIL
  }

  function WriteSlot(h: Heap, o: Value, i: nat, v: Value): Heap
  {
    h.(slots := h.slots[(o, i) := v])
  }

  /** What a method activation rests on: sends, classes, outer contexts and closures. A send
      answers nothing when it does not come back. */
  datatype World = World(
    send: (Value, Option<Value>, Value, seq<Value>, Heap) -> Option<(Value, Heap)>,
    classOf: (Heap, Value) -> Value,
    outer: (Heap, Value, nat) -> Value,
    closure: (Value, Value, Value) -> Value,
    dummyContext: Value)

  /** slotBase is the body slot of the owner class's first named variable: payloadSize plus
      one for an indexed shape (vm/compiler/Optimizer.c:923). */
  datatype Method = Method(
    code: Code, literals: seq<Value>, argsSize: nat, tempsSize: nat,
    primitive: bool, hasContext: bool, outerReturns: bool, slotBase: nat, superClass: Value)

  type Frame = map<nat, Value>

  function Get(f: Frame, i: nat): Value
  {
    if i in f then f[i] else NIL
  }

  function LiteralAt(m: Method, i: nat): Value
  {
    if i < |m.literals| then m.literals[i] else NIL
  }

  datatype Conf =
    | Running(pc: nat, frame: Frame, heap: Heap)
    | Done(value: Value, outer: bool, heap: Heap)
    | Stuck

  ghost function Read(w: World, m: Method, f: Frame, h: Heap, op: Operand): Value
  {
    match op
    case Immediate(v) => v
    case Nil => NIL
    case True => TRUE
    case False => FALSE
    case ThisContext => Get(f, CONTEXT_INDEX)
    case Temp(i) => Get(f, i)
    case Arg(i) => Get(f, i)
    case Super => Get(f, SELF_INDEX)
    case ContextVar(i, level) => ReadSlot(h, w.outer(h, Get(f, CONTEXT_INDEX), level), i)
    case InstVar(i) => ReadSlot(h, Get(f, SELF_INDEX), m.slotBase + i)
    case InstVarOf(slot, t) => ReadSlot(h, Get(f, t), slot)
    case Literal(i) => LiteralAt(m, i)
    case Assoc(i) => ReadSlot(h, LiteralAt(m, i), ASSOC_VALUE)
    case Block(i) => w.closure(LiteralAt(m, i), Get(f, SELF_INDEX), Get(f, CONTEXT_INDEX))
  }

  ghost function WriteFrame(f: Frame, op: Operand, v: Value): Frame
  {
    match op
    case Temp(i) => f[i := v]
    case Arg(i) => f[i := v]
    case _ => f
  }

  ghost function WriteHeap(w: World, m: Method, f: Frame, h: Heap, op: Operand, v: Value): Heap
  {
    match op
    case ContextVar(i, level) => WriteSlot(h, w.outer(h, Get(f, CONTEXT_INDEX), level), i, v)
    case InstVar(i) => WriteSlot(h, Get(f, SELF_INDEX), m.slotBase + i, v)
    case InstVarOf(slot, t) => WriteSlot(h, Get(f, t), slot, v)
    case Assoc(i) => WriteSlot(h, LiteralAt(m, i), ASSOC_VALUE, v)
    case _ => h
  }

  /** Argument values in source order. */
  ghost function ReadArgs(w: World, m: Method, f: Frame, h: Heap, args: seq<Operand>): (vs: seq<Value>)
    ensures |vs| == |args|
    ensures forall i {:trigger vs[i]} :: 0 <= i < |args| ==> vs[i] == Read(w, m, f, h, args[|args| - 1 - i])
  {
    seq(|args|, i requires 0 <= i < |args| => Read(w, m, f, h, args[|args| - 1 - i]))
  }

  ghost function SendStep(w: World, m: Method, pc: nat, f: Frame, h: Heap, i: Instr): Conf
    requires i.Send?
  {
    var receiver := Read(w, m, f, h, i.receiver);
    var static_ := if i.receiver.Super? then Some(m.superClass) else None;
    match w.send(LiteralAt(m, i.selector), static_, receiver, ReadArgs(w, m, f, h, i.args), h)
    case None => Stuck
    case Some((v, h')) => Stored(w, m, pc, f, h', i.store, v)
  }

  /** Going on after pc with v written to the store operand, if there is one. */
  ghost function Stored(w: World, m: Method, pc: nat, f: Frame, h: Heap, store: Option<Operand>, v: Value): Conf
  {
    match store
    case None => Running(pc + 1, f, h)
    case Some(op) => Running(pc + 1, WriteFrame(f, op, v), WriteHeap(w, m, f, h, op, v))
  }

  ghost function JumpStep(code: Code, c: Conf): Conf
    requires c.Running?
  {
    match Target(code, c.pc)
    case None => Stuck
    case Some(t) => c.(pc := t)
  }

  /** One step. Falling off the end answers self. */
  ghost function Step(w: World, m: Method, c: Conf): Conf
    requires c.Running?
  {
    var Running(pc, f, h) := c;
    if pc == |m.code| then Done(Get(f, SELF_INDEX), false, h)
    else if pc > |m.code| then Stuck
    else match m.code[pc]
      case Copy(s, d) => Stored(w, m, pc, f, h, Some(d), Read(w, m, f, h, s))
      case Send(_, _, _, _) => SendStep(w, m, pc, f, h, m.code[pc])
      case Return(op) => Done(Read(w, m, f, h, op), false, h)
      case OuterReturn(op) => Done(Read(w, m, f, h, op), true, h)
      case Jump(_) => JumpStep(m.code, c)
      case JumpNotMemberOf(k, op, _) =>
        if w.classOf(h, Read(w, m, f, h, op)) == LiteralAt(m, k) then c.(pc := pc + 1) else JumpStep(m.code, c)
  }

  ghost function Steps(w: World, m: Method, c: Conf, n: nat): Conf
    decreases n
  {
    if n == 0 || !c.Running? then c else Steps(w, m, Step(w, m, c), n - 1)
  }

  lemma {:induction false} StepsAdd(w: World, m: Method, c: Conf, j: nat, k: nat)
    ensures Steps(w, m, c, j + k) == Steps(w, m, Steps(w, m, c, j), k)
    decreases j
  {
    if j > 0 && c.Running? {
      StepsAdd(w, m, Step(w, m, c), j - 1, k);
    }
  }

  ghost function Slots(vs: seq<Value>): Frame
  {
    map i: nat | i < |vs| :: vs[i]
  }

  /** The activation of a method without a context: the dummy context, self and the
      arguments in their slots, temporaries still nil. */
  ghost function Entry(w: World, self: Value, args: seq<Value>, h: Heap): Conf
  {
    Running(0, Slots([w.dummyContext, self] + args), h)
  }

  /** The activation from c comes back with this answer. */
  ghost predicate Answers(w: World, m: Method, c: Conf, value: Value, outer: bool, h: Heap)
  {
    exists n: nat :: Steps(w, m, c, n) == Done(value, outer, h)
  }
}
