/** The literal frame of an inlined method (vm/compiler/Optimizer.c, vm/runtime/Collection.c:100-124):
    the literals a callee's body mentions, in the order in which they are merged into the caller's. */
module InlineLiterals {
  import opened BytecodeMachine

  ghost predicate HasLike(like: (Value, Value) -> bool, literals: seq<Value>, v: Value)
  {
    exists j {:trigger literals[j]} :: 0 <= j < |literals| && like(v, literals[j])
  }

  /** The frame with v in it: as it is if it has one like v, otherwise with v at the end. */
  ghost function Added(like: (Value, Value) -> bool, literals: seq<Value>, v: Value): seq<Value>
  {
    if HasLike(like, literals, v) then literals else literals + [v]
  }

  ghost function Merge(like: (Value, Value) -> bool, literals: seq<Value>, vs: seq<Value>): seq<Value>
    decreases |vs|
  {
    if vs == [] then literals else Merge(like, Added(like, literals, vs[0]), vs[1..])
  }

  lemma {:induction false} MergeTwo(like: (Value, Value) -> bool, literals: seq<Value>, vs: seq<Value>, us: seq<Value>)
    ensures Merge(like, literals, vs + us) == Merge(like, Merge(like, literals, vs), us)
    decreases |vs|
  {
    if vs == [] {
      assert vs + us == us;
    } else {
      MergeTwo(like, Added(like, literals, vs[0]), vs[1..], us);
      assert (vs + us)[1..] == vs[1..] + us;
    }
  }

  lemma MergeOne(like: (Value, Value) -> bool, literals: seq<Value>, v: Value)
    ensures Merge(like, literals, [v]) == Added(like, literals, v)
  {
    assert [v][1..] == [];
  }

  /** The merged frame: the caller's literals where they were; one like each value merged; and
      nothing else, each addition unlike all before it. */
  ghost predicate MergedFrame(like: (Value, Value) -> bool, literals: seq<Value>, vs: seq<Value>, frame: seq<Value>)
  {
    && literals <= frame
    && (forall k {:trigger vs[k]} :: 0 <= k < |vs| ==> HasLike(like, frame, vs[k]))
    && (forall j {:trigger frame[j]} ::
      |literals| <= j < |frame| ==> frame[j] in vs && !HasLike(like, frame[..j], frame[j]))
  }

  lemma LikeMore(like: (Value, Value) -> bool, literals: seq<Value>, more: seq<Value>, v: Value)
    requires HasLike(like, literals, v) && literals <= more
    ensures HasLike(like, more, v)
  {
    var j :| 0 <= j < |literals| && like(v, literals[j]);
    assert more[j] == literals[j];
  }

  lemma {:induction false} MergeIs(like: (Value, Value) -> bool, literals: seq<Value>, vs: seq<Value>)
    requires forall v: Value :: like(v, v)
    ensures MergedFrame(like, literals, vs, Merge(like, literals, vs))
    decreases |vs|
  {
    if vs != [] {
      var more := Added(like, literals, vs[0]);
      var frame := Merge(like, literals, vs);
      MergeIs(like, more, vs[1..]);
      assert HasLike(like, more, vs[0]) by { if more != literals { assert more[|literals|] == vs[0]; } }
      LikeMore(like, more, frame, vs[0]);
      forall k | 0 <= k < |vs| ensures HasLike(like, frame, vs[k]) { if k > 0 { assert vs[1..][k - 1] == vs[k]; } }
      forall j | |literals| <= j < |frame| ensures frame[j] in vs && !HasLike(like, frame[..j], frame[j]) {
        if j < |more| { assert frame[j] == vs[0] && frame[..j] == literals; }
      }
    }
  }

  /** The literal an operand names. */
  ghost function OperandLiterals(m: Method, op: Operand): seq<Value>
  {
    match op
    case Literal(i) => [LiteralAt(m, i)]
    case Assoc(i) => [LiteralAt(m, i)]
    case _ => []
  }

  ghost function OperandsLiterals(m: Method, ops: seq<Operand>): seq<Value>
  {
    if ops == [] then []
    else OperandsLiterals(m, ops[..|ops| - 1]) + OperandLiterals(m, ops[|ops| - 1])
  }

  /** What an instruction mentions; a return only if its answer is stored. */
  ghost function InstrLiterals(m: Method, i: Instr, stores: bool): seq<Value>
  {
    match i
    case Copy(source, dest) => OperandLiterals(m, source) + OperandLiterals(m, dest)
    case Send(selector, receiver, args, store) =>
      OperandLiterals(m, receiver) + OperandsLiterals(m, args) + [LiteralAt(m, selector)] +
      if store.Some? then OperandLiterals(m, store.value) else []
    case Return(op) => if stores then OperandLiterals(m, op) else []
    case JumpNotMemberOf(class_, op, _) => OperandLiterals(m, op) + [LiteralAt(m, class_)]
    case _ => []
  }

  ghost function BodyLiterals(m: Method, n: nat, stores: bool): seq<Value>
    requires n <= |m.code|
  {
    if n == 0 then [] else BodyLiterals(m, n - 1, stores) + InstrLiterals(m, m.code[n - 1], stores)
  }

  lemma OperandsMore(m: Method, ops: seq<Operand>, i: nat)
    requires i < |ops|
    ensures OperandsLiterals(m, ops[..i + 1]) == OperandsLiterals(m, ops[..i]) + OperandLiterals(m, ops[i])
  {
    assert ops[..i + 1][..i] == ops[..i];
  }

  /** Where variables lie does not matter. */
  lemma {:induction false} BodyRelaid(m: Method, slotBase: nat, n: nat, stores: bool)
    requires n <= |m.code|
    ensures BodyLiterals(m.(slotBase := slotBase), n, stores) == BodyLiterals(m, n, stores)
  {
    hide InstrLiterals;
    if n > 0 {
      BodyRelaid(m, slotBase, n - 1, stores);
      InstrRelaid(m, slotBase, m.code[n - 1], stores);
    }
  }

  lemma InstrRelaid(m: Method, slotBase: nat, i: Instr, stores: bool)
    ensures InstrLiterals(m.(slotBase := slotBase), i, stores) == InstrLiterals(m, i, stores)
  {
    var laid := m.(slotBase := slotBase);
    forall op: Operand ensures OperandLiterals(laid, op) == OperandLiterals(m, op) {}
    hide OperandLiterals, OperandsLiterals;
    if i.Send? { OperandsRelaid(m, slotBase, i.args); }
  }

  lemma {:induction false} OperandsRelaid(m: Method, slotBase: nat, ops: seq<Operand>)
    ensures OperandsLiterals(m.(slotBase := slotBase), ops) == OperandsLiterals(m, ops)
  {
    if ops != [] {
      OperandsRelaid(m, slotBase, ops[..|ops| - 1]);
      assert OperandLiterals(m.(slotBase := slotBase), ops[|ops| - 1]) == OperandLiterals(m, ops[|ops| - 1]);
    }
  }
}
