/** Which callees the inliner accepts (inlineEligible, calleeCanFallThrough). */
module InlineEligibility {
  import opened BytecodeMachine
  import opened InlineMeaning

  const OPT_MAX_ARGS := 15
  const OPT_MAX_LITERALS := 240
  const OPT_MAX_TEMPS := 120
  const OPT_MAX_CALLEE_BYTES := 512

  /** What the compiler guarantees of every operand: indexes stay in the frame and the literals. */
  ghost predicate InRange(m: Method, op: Operand)
  {
    match op
    case Temp(i) => 2 + m.argsSize <= i < 2 + m.argsSize + m.tempsSize
    case Arg(i) => 1 <= i < 2 + m.argsSize
    case Literal(i) => i < |m.literals|
    case Assoc(i) => i < |m.literals|
    case Block(i) => i < |m.literals|
    case InstVarOf(_, _) => false
    case _ => true
  }

  ghost predicate AllInRange(m: Method, ops: seq<Operand>)
  {
    forall i {:trigger ops[i]} :: 0 <= i < |ops| ==> InRange(m, ops[i])
  }

  ghost predicate InstrInRange(m: Method, i: Instr)
  {
    match i
    case Copy(s, d) => InRange(m, s) && InRange(m, d)
    case Send(sel, r, args, store) =>
      sel < |m.literals| && InRange(m, r) && AllInRange(m, args) && (store.Some? ==> InRange(m, store.value))
    case Return(op) => InRange(m, op)
    case OuterReturn(op) => InRange(m, op)
    case Jump(_) => true
    case JumpNotMemberOf(k, op, _) => k < |m.literals| && InRange(m, op)
  }

  /** A method as the compiler makes it. */
  ghost predicate Compiled(m: Method)
  {
    forall i {:trigger m.code[i]} :: 0 <= i < |m.code| ==> InstrInRange(m, m.code[i])
  }

  predicate OperandAccepted(slotBase: nat, op: Operand)
  {
    match op
    case Immediate(_) => true
    case Nil => true
    case True => true
    case False => true
    case Temp(_) => true
    case Arg(_) => true
    case Literal(_) => true
    case Assoc(_) => true
    case InstVar(i) => slotBase + i <= 255
    case _ => false
  }

  ghost predicate AllAccepted(slotBase: nat, ops: seq<Operand>)
  {
    forall i {:trigger ops[i]} :: 0 <= i < |ops| ==> OperandAccepted(slotBase, ops[i])
  }

  ghost predicate InstrAccepted(slotBase: nat, i: Instr)
  {
    match i
    case Copy(s, d) => OperandAccepted(slotBase, s) && OperandAccepted(slotBase, d) && !d.Arg?
    case Send(_, r, args, store) =>
      && |args| <= OPT_MAX_ARGS && OperandAccepted(slotBase, r) && AllAccepted(slotBase, args)
      && (store.Some? ==> OperandAccepted(slotBase, store.value) && !store.value.Arg?)
    case Return(op) => OperandAccepted(slotBase, op)
    case OuterReturn(_) => false
    case Jump(_) => true
    case JumpNotMemberOf(_, op, _) => OperandAccepted(slotBase, op)
  }

  /** Acceptance, said of the instructions rather than by the scan: a leaf method of bounded
      size whose operands can be remapped and whose every jump lands on an instruction of its
      own, or on its end. */
  ghost predicate Accepted(inlineMax: nat, slotBase: nat, m: Method)
  {
    && !m.primitive && !m.hasContext && !m.outerReturns
    && 0 < Offset(m.code, |m.code|) <= inlineMax && Offset(m.code, |m.code|) <= OPT_MAX_CALLEE_BYTES
    && (forall i {:trigger m.code[i]} :: 0 <= i < |m.code| ==> InstrAccepted(slotBase, m.code[i]))
    && (forall i: nat {:trigger m.code[i]} :: i < |m.code| && IsJump(m.code[i]) ==> Target(m.code, i).Some?)
  }

  method OperandsAccepted(slotBase: nat, ops: seq<Operand>) returns (ok: bool)
    ensures ok <==> AllAccepted(slotBase, ops)
  {
    for i := 0 to |ops|
      invariant forall j {:trigger ops[j]} :: 0 <= j < i ==> OperandAccepted(slotBase, ops[j])
    {
      if !OperandAccepted(slotBase, ops[i]) { return false; }
    }
    return true;
  }

  method Accepts(slotBase: nat, i: Instr) returns (ok: bool)
    ensures ok <==> InstrAccepted(slotBase, i)
  {
    match i
    case Copy(s, d) => ok := OperandAccepted(slotBase, s) && OperandAccepted(slotBase, d) && !d.Arg?;
    case Send(_, r, args, store) =>
      if |args| > OPT_MAX_ARGS || !OperandAccepted(slotBase, r) { return false; }
      ok := OperandsAccepted(slotBase, args);
      ok := ok && (store.Some? ==> OperandAccepted(slotBase, store.value) && !store.value.Arg?);
    case Return(op) => ok := OperandAccepted(slotBase, op);
    case OuterReturn(_) => ok := false;
    case Jump(_) => ok := true;
    case JumpNotMemberOf(_, op, _) => ok := OperandAccepted(slotBase, op);
  }

  /** The byte offsets at which the first n instructions of code, or its end, start. */
  ghost predicate Starts(code: Code, n: nat, starts: set<int>)
    requires n <= |code|
  {
    forall b {:trigger b in starts} :: b in starts <==> b == Offset(code, |code|) || StartsBelow(code, n, b)
  }

  ghost predicate StartsBelow(code: Code, n: nat, b: int)
    requires n <= |code|
  {
    exists i: nat :: i < n && Offset(code, i) == b
  }

  ghost predicate Aims(code: Code, targets: seq<int>, from: seq<nat>, n: nat)
    requires n <= |code|
  {
    && |from| == |targets|
    && (forall r {:trigger targets[r]} {:trigger from[r]} :: 0 <= r < |from| ==>
          from[r] < n && IsJump(code[from[r]]) && targets[r] == Offset(code, from[r] + 1) + code[from[r]].disp)
    && (forall i: nat {:trigger code[i]} :: i < n && IsJump(code[i]) ==> i in from)
  }

  /** The scan over the callee's bytes: collect instruction starts and jump targets, then see
      that every target is a start. */
  method InlineEligible(inlineMax: nat, slotBase: nat, m: Method) returns (ok: bool)
    ensures ok <==> Accepted(inlineMax, slotBase, m)
  {
    if m.primitive || m.hasContext || m.outerReturns { return false; }
    var size := Offset(m.code, |m.code|);
    if size == 0 || size > inlineMax || size > OPT_MAX_CALLEE_BYTES { return false; }
    var starts: set<int> := {size};
    var targets: seq<int> := [];
    ghost var from: seq<nat> := [];
    var offset := 0;
    for i := 0 to |m.code|
      invariant offset == Offset(m.code, i)
      invariant forall j {:trigger m.code[j]} :: 0 <= j < i ==> InstrAccepted(slotBase, m.code[j])
      invariant Starts(m.code, i, starts) && Aims(m.code, targets, from, i)
    {
      hide InstrAccepted;
      MoreStarts(m.code, i, starts);
      starts := starts + {offset};
      var ok1 := Accepts(slotBase, m.code[i]);
      if !ok1 { return false; }
      offset := offset + Size(m.code[i]);
      if IsJump(m.code[i]) {
        targets := targets + [offset + m.code[i].disp];
        from := from + [i];
      }
    }
    for r := 0 to |targets|
      invariant forall q {:trigger targets[q]} :: 0 <= q < r ==> targets[q] in starts
    {
      hide InstrAccepted;
      LandsIff(m.code, starts, targets[r], from[r]);
      if targets[r] !in starts { return false; }
    }
    forall i: nat | i < |m.code| && IsJump(m.code[i]) ensures Target(m.code, i).Some? {
      assert i in from;
      var r :| 0 <= r < |from| && from[r] == i;
      assert targets[r] in starts;
      LandsIff(m.code, starts, targets[r], i);
    }
    return true;
  }

  lemma MoreStarts(code: Code, n: nat, starts: set<int>)
    requires n < |code| && Starts(code, n, starts)
    ensures Starts(code, n + 1, starts + {Offset(code, n) as int})
  {
    hide Offset;
    var more := starts + {Offset(code, n) as int};
    forall b ensures b in more <==> b == Offset(code, |code|) || StartsBelow(code, n + 1, b) {
      if StartsBelow(code, n, b) { var i: nat :| i < n && Offset(code, i) == b;
        assert i < n + 1 && Offset(code, i) == b; }
    }
  }

  lemma LandsIff(code: Code, starts: set<int>, target: int, i: nat)
    requires Starts(code, |code|, starts) && i < |code| && IsJump(code[i]) &&
      target == Offset(code, i + 1) + code[i].disp
    ensures target in starts <==> Target(code, i).Some?
  {
    hide Offset;
    if target in starts {
      if StartsBelow(code, |code|, target) {
        var t: nat :| t < |code| && Offset(code, t) == target;
        assert JumpsTo(code, i, t);
      } else {
        assert JumpsTo(code, i, |code|);
      }
    }
    if Target(code, i).Some? {
      var t := Target(code, i).value;
      assert t < |code| ==> StartsBelow(code, |code|, target);
    }
  }

  /** Whether control can reach the end of the callee's body without a return. */
  method CalleeCanFallThrough(code: Code) returns (r: bool)
    ensures r <==> CanFallThrough(code)
  {
    hide Offset, Size;
    var size := Offset(code, |code|);
    for i := 0 to |code|
      invariant forall j: nat {:trigger JumpsTo(code, j, |code|)} :: j < i ==> !JumpsTo(code, j, |code|)
    {
      if IsJump(code[i]) && Offset(code, i + 1) + code[i].disp == size {
        assert JumpsTo(code, i, |code|);
        return true;
      }
    }
    return code == [] || (!code[|code| - 1].Return? && !code[|code| - 1].Jump?);
  }
}
