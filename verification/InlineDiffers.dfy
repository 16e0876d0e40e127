/** Where the inlined copy is not the callee. A String literal gives way to one of the same
    contents that the frame already holds; a variable is looked for where the receiver's class
    has it and not where the method's own class has it. Each with the code the inliner emits, and
    with exactly when it happens. */
module InlineDiffers {
  import opened Options
  import opened BytecodeMachine
  import opened InlineMeaning
  import opened InlineTheorem
  import opened InlineLayout
  import opened InlineMerged
  import opened InlineStale

  // ----- exactly when a literal gives way -----

  lemma {:induction false} FirstFound(like: (Value, Value) -> bool, literals: seq<Value>, v: Value, i: nat)
      returns (k: nat)
    requires i < |literals| && like(v, literals[i])
    ensures k <= i && FirstLike(like, literals, k, v)
    decreases i
  {
    if j: nat :| j < i && like(v, literals[j]) {
      k := FirstFound(like, literals, v, j);
    } else {
      k := i;
    }
  }

  /** A callee literal keeps its place unless it is a String and another String of its contents
      comes before it, or without it, in the frame. */
  lemma StandsForItself(env: Env, literals: seq<Value>, v: Value)
    ensures Standing(Like(env), literals, v) == v <==>
      forall i {:trigger literals[i]} ::
        0 <= i < |literals| && env.contents(v).Some? && env.contents(literals[i]) == env.contents(v) ==>
        exists j {:trigger literals[j]} :: 0 <= j <= i && literals[j] == v
  {
    var like := Like(env);
    if Standing(like, literals, v) == v {
      forall i | 0 <= i < |literals| && env.contents(v).Some? && env.contents(literals[i]) == env.contents(v)
        ensures exists j {:trigger literals[j]} :: 0 <= j <= i && literals[j] == v
      {
        var k := FirstFound(like, literals, v, i);
        assert literals[k] == v;
      }
    } else {
      var i: nat :| FirstLike(like, literals, i, v);
      assert env.contents(v).Some? && env.contents(literals[i]) == env.contents(v);
      assert forall j {:trigger literals[j]} :: 0 <= j <= i ==> literals[j] != v;
    }
  }

  /** The image of a literal reads what stands for the literal, in every frame and heap. */
  lemma LiteralReads(w: World, x: Rewrite, s: Site, f: Frame, h: Heap, i: nat, op: Operand)
    requires Adjusted(x, s, Literal(i), op)
    ensures Read(w, x.new_, f, h, op) == Standing(x.like, x.new_.literals, s.callee.literals[i])
  {
    assert FirstLike(x.like, x.new_.literals, op.index, s.callee.literals[i]);
  }

  /** Reading a variable of self by two layouts agrees in every heap only if the layouts do. */
  lemma VariableReads(w: World, m: Method, slotBase: nat, i: nat)
    ensures (forall f: Frame, h: Heap ::
      Read(w, m, f, h, InstVar(i)) == Read(w, m.(slotBase := slotBase), f, h, InstVar(i)))
      <==> m.slotBase == slotBase
  {
    if m.slotBase != slotBase {
      var f: Frame, h := map[SELF_INDEX := CLASS], Heap(map[(CLASS, m.slotBase + i) := TRUE], [], 0);
      assert Read(w, m, f, h, InstVar(i)) == TRUE;
      assert Read(w, m.(slotBase := slotBase), f, h, InstVar(i)) == NIL;
    }
  }

  // ----- one send, inlined -----

  const SELECTOR := Value(11)
  const MINE := Value(20)    // the caller's 'a'
  const YOURS := Value(21)   // the callee's 'a'

  const SENDER := Method(
    [Send(0, Arg(1), [], Some(Temp(2))), Return(Temp(2))], [SELECTOR, MINE], 0, 1, false, false, false, 0, NIL)

  /** Guard, spilled self, the callee's answer op, the jump over the fallback, the fallback. */
  function WithAnswer(op: Operand): Method
  {
    SENDER.(
      code := [
        JumpNotMemberOf(2, Arg(1), 16 + OperandSize(op)), Copy(Arg(1), Temp(3)), Copy(op, Temp(2)), Jump(10),
        Send(0, Arg(1), [], Some(Temp(2))), Return(Temp(2))],
      literals := [SELECTOR, MINE, CLASS], tempsSize := 2)
  }

  ghost function OneSite(callee: Method, op: Operand, like: (Value, Value) -> bool): Rewrite
  {
    Rewrite(SENDER, WithAnswer(op), 3, [0, 5, 6], map[0 := Site(CLASS, 2, callee, callee.slotBase, [2, 3])], like)
  }

  lemma AnswerJumps(op: Operand)
    ensures JumpsTo(WithAnswer(op).code, 0, 4) && JumpsTo(WithAnswer(op).code, 3, 5)
  {
    var c := WithAnswer(op).code;
    assert Offset(c, 0) == 0;
    assert Offset(c, 1) == 10;
    assert Offset(c, 2) == 17;
    assert Offset(c, 3) == 21 + OperandSize(op);
    assert Offset(c, 4) == 26 + OperandSize(op);
    assert Offset(c, 5) == 36 + OperandSize(op);
  }

  lemma OneBody(callee: Method, value: Operand, op: Operand, like: (Value, Value) -> bool)
    requires callee.code == [Return(value)] && callee.argsSize == 0 &&
      Adjusted(OneSite(callee, op, like), OneSite(callee, op, like).sites[0], value, op)
    ensures Body(OneSite(callee, op, like), OneSite(callee, op, like).sites[0], Some(Temp(2)))
    ensures BodyEnd(OneSite(callee, op, like).sites[0], Some(Temp(2))) == 3
  {
    var x := OneSite(callee, op, like);
    var s := x.sites[0];
    NoFallThrough(callee.code);
    hide CanFallThrough, JumpsTo, Offset, Adjusted;
    assert BodyEnd(s, Some(Temp(2))) == 3;
    assert BodyAt(x, s, Some(Temp(2)), 0);
  }

  lemma OneSiteSpliced(callee: Method, value: Operand, op: Operand, like: (Value, Value) -> bool)
    requires callee.code == [Return(value)] && callee.argsSize == 0 &&
      Adjusted(OneSite(callee, op, like), OneSite(callee, op, like).sites[0], value, op)
    requires like(CLASS, CLASS) && !like(CLASS, SELECTOR) && !like(CLASS, MINE)
    ensures Spliced(OneSite(callee, op, like))
  {
    var x := OneSite(callee, op, like);
    OneBody(callee, value, op, like);
    AnswerJumps(op);
    hide Body, BodyEnd, JumpsTo, Offset, Adjusted;
    assert SiteAt(x, 0, x.sites[0]);
    assert RawAt(x, 1);
    assert x.orig.literals <= x.new_.literals by { assert x.new_.literals[..2] == x.orig.literals; }
  }

  /** With every object an instance of the guarded class, the inlined copy answers what op reads. */
  lemma AnswerRuns(w: World, op: Operand, self: Value, h: Heap)
    requires forall h: Heap, v: Value {:trigger w.classOf(h, v)} :: w.classOf(h, v) == CLASS
    ensures Answers(w, WithAnswer(op), Entry(w, self, [], h),
      Read(w, WithAnswer(op), Entry(w, self, [], h).frame[3 := self], h, op), false, h)
  {
    AnswerJumps(op);
    TargetIs(WithAnswer(op).code, 3, 5);
    hide JumpsTo, Target, Offset, Steps;
    var m := WithAnswer(op);
    var c := Entry(w, self, [], h);
    var f := c.frame;
    var g := f[3 := self];
    var v := Read(w, m, g, h, op);
    assert Step(w, m, c) == Running(1, f, h);
    assert Step(w, m, Running(1, f, h)) == Running(2, g, h);
    assert Step(w, m, Running(2, g, h)) == Running(3, g[2 := v], h);
    assert Step(w, m, Running(3, g[2 := v], h)) == Running(5, g[2 := v], h);
    assert Step(w, m, Running(5, g[2 := v], h)) == Done(v, false, h);
    hide Step;
    Ahead(w, m, c, 0);
    Ahead(w, m, c, 1);
    Ahead(w, m, c, 2);
    Ahead(w, m, c, 3);
    Ahead(w, m, c, 4);
    assert Steps(w, m, c, 5) == Done(v, false, h);
  }

  lemma SenderRuns(w: World, self: Value, h: Heap, v: Value)
    requires w.send(SELECTOR, None, self, [], h) == Some((v, h))
    ensures Answers(w, SENDER, Entry(w, self, [], h), v, false, h)
  {
    hide Steps;
    var c := Entry(w, self, [], h);
    assert ReadArgs(w, SENDER, c.frame, h, []) == [];
    assert Step(w, SENDER, c) == Running(1, c.frame[2 := v], h);
    assert Step(w, SENDER, Running(1, c.frame[2 := v], h)) == Done(v, false, h);
    Ahead(w, SENDER, c, 0);
    Ahead(w, SENDER, c, 1);
    assert Steps(w, SENDER, c, 2) == Done(v, false, h);
  }

  lemma ReturnDispatches(w: World, callee: Method, value: Operand)
    requires callee.code == [Return(value)] && callee.argsSize == 0
    requires forall self: Value, h: Heap {:trigger Entry(w, self, [], h)} ::
      w.send(SELECTOR, None, self, [], h) == Some((Read(w, callee, Entry(w, self, [], h).frame, h, value), h))
    ensures Dispatches(w, SELECTOR, CLASS, callee)
  {
    forall self: Value, args: seq<Value>, h: Heap, v: Value, h': Heap | |args| == 0
      ensures w.send(SELECTOR, None, self, args, h) == Some((v, h')) <==>
        Answers(w, callee, Entry(w, self, args, h), v, false, h')
    {
      assert args == [];
      var c := Entry(w, self, [], h);
      assert Step(w, callee, c) == Done(Read(w, callee, c.frame, h, value), false, h);
      Unroll(w, callee, c);
      AnswersOnly(w, callee, c, 1, v, h');
    }
  }

  // ----- a String that gives way -----

  const ANSWERS_A := Method([Return(Literal(0))], [YOURS], 0, 0, false, false, false, 0, NIL)

  function SameA(v: Value): Option<string>
  {
    if v == MINE || v == YOURS then Some("a") else None
  }

  ghost const IMAGE := Env(SameA, (c, sel) => Some(ANSWERS_A), c => 0, (sel, n) => false, 127)

  ghost const ANSWERING := World((sel, st, r, args, h) => Some((YOURS, h)), (h, v) => CLASS, (h, v, n) =>
    NIL, (b, s, c) => NIL, NIL)

  /** The callee answers its own 'a'; inlined into a method that holds another 'a', it answers
      that one. */
  lemma StringGivesWay(self: Value, h: Heap)
    ensures Spliced(OneSite(ANSWERS_A, Literal(1), Like(IMAGE))) && Dispatches(ANSWERING, SELECTOR, CLASS, ANSWERS_A)
    ensures Answers(ANSWERING, SENDER, Entry(ANSWERING, self, [], h), YOURS, false, h)
    ensures Answers(ANSWERING, WithAnswer(Literal(1)), Entry(ANSWERING, self, [], h), MINE, false, h)
    ensures MINE != YOURS
  {
    var x := OneSite(ANSWERS_A, Literal(1), Like(IMAGE));
    assert FirstLike(x.like, x.new_.literals, 1, YOURS);
    OneSiteSpliced(ANSWERS_A, Literal(0), Literal(1), Like(IMAGE));
    ReturnDispatches(ANSWERING, ANSWERS_A, Literal(0));
    SenderRuns(ANSWERING, self, h, YOURS);
    AnswerRuns(ANSWERING, Literal(1), self, h);
  }

  // ----- a variable that lies elsewhere -----

  /** Compiled for a class whose variables start at slot 0. */
  const ANSWERS_FIRST := Method([Return(InstVar(0))], [], 0, 0, false, false, false, 0, NIL)

  ghost const READING := World((sel, st, r, args, h) => Some((ReadSlot(h, r, 0), h)), (h, v) => CLASS, (h, v, n) =>
    NIL, (b, s, c) => NIL, NIL)

  /** Called on an instance of a subclass whose variables start at slot 1, the method reads slot
      0, which there holds no variable; inlined, it reads slot 1, which holds the one it names. */
  lemma VariableMoves(self: Value, h: Heap)
    ensures Spliced(OneSite(ANSWERS_FIRST.(slotBase := 1), InstVarOf(1, 3), (a, b) => a == b)) &&
      Dispatches(READING, SELECTOR, CLASS, ANSWERS_FIRST)
    ensures Answers(READING, SENDER, Entry(READING, self, [], h), ReadSlot(h, self, 0), false, h)
    ensures Answers(READING, WithAnswer(InstVarOf(1, 3)), Entry(READING, self, [], h), ReadSlot(h, self, 1), false, h)
  {
    OneSiteSpliced(ANSWERS_FIRST.(slotBase := 1), InstVar(0), InstVarOf(1, 3), (a, b) => a == b);
    ReturnDispatches(READING, ANSWERS_FIRST, InstVar(0));
    SenderRuns(READING, self, h, ReadSlot(h, self, 0));
    AnswerRuns(READING, InstVarOf(1, 3), self, h);
  }
}
