/** Rewritten methods answer as the originals do, in every run. */
module InlineTheorem {
  import opened Options
  import opened BytecodeMachine
  import opened InlineMeaning

  // ----- what a rewriting is -----

  /** An operand of the original method names its own slots and literals only. */
  ghost predicate CallerOperand(m: Method, base: nat, op: Operand)
  {
    match op
    case Temp(i) => i < base
    case Arg(i) => i < base
    case InstVarOf(_, t) => t < base
    case Literal(i) => i < |m.literals|
    case Assoc(i) => i < |m.literals|
    case Block(i) => i < |m.literals|
    case _ => true
  }

  ghost predicate CallerOperands(m: Method, base: nat, ops: seq<Operand>)
  {
    forall i {:trigger ops[i]} :: 0 <= i < |ops| ==> CallerOperand(m, base, ops[i])
  }

  ghost predicate CallerInstr(m: Method, base: nat, i: Instr)
  {
    match i
    case Copy(s, d) => CallerOperand(m, base, s) && CallerOperand(m, base, d)
    case Send(sel, r, args, store) =>
      && sel < |m.literals| && CallerOperand(m, base, r) && CallerOperands(m, base, args)
      && (store.Some? ==> CallerOperand(m, base, store.value))
    case Return(op) => CallerOperand(m, base, op)
    case OuterReturn(op) => CallerOperand(m, base, op)
    case Jump(_) => true
    case JumpNotMemberOf(k, op, _) => k < |m.literals| && CallerOperand(m, base, op)
  }

  ghost predicate JumpKept(x: Rewrite, k: nat)
    requires |x.start| == |x.orig.code| + 1 && k < |x.orig.code|
  {
    && Target(x.orig.code, k).Some?
    && JumpsTo(x.new_.code, x.start[k], x.start[Target(x.orig.code, k).value])
  }

  /** Instruction k is copied as it stands, a jump with its displacement relocated. */
  ghost predicate RawAt(x: Rewrite, k: nat)
    requires |x.start| == |x.orig.code| + 1 && k < |x.orig.code|
  {
    && RawCode(x, x.orig.code[k], x.start[k], x.start[k + 1])
    && (IsJump(x.orig.code[k]) ==> JumpKept(x, k))
  }

  ghost predicate RawCode(x: Rewrite, i: Instr, p: nat, end: nat)
  {
    end == p + 1 && p < |x.new_.code| &&
    match i
    case Jump(_) => x.new_.code[p].Jump?
    case JumpNotMemberOf(c, op, _) => x.new_.code[p].JumpNotMemberOf? && x.new_.code[p].class_ == c &&
      x.new_.code[p].operand == op
    case _ => x.new_.code[p] == i
  }

  ghost predicate SiteAt(x: Rewrite, k: nat, s: Site)
    requires |x.start| == |x.orig.code| + 1 && k < |x.orig.code|
  {
    SiteCode(x, x.orig.code[k], x.start[k], x.start[k + 1], s)
  }

  /** The guard, the spilled receiver and arguments, the body, the jump over the fallback,
      and the fallback: the original send. */
  ghost predicate SiteCode(x: Rewrite, i: Instr, p: nat, end: nat, s: Site)
  {
    && i.Send? && !i.receiver.Super? && |i.args| == s.callee.argsSize
    && Body(x, s, i.store)
    && s.at[0] == p + 2 + |i.args|
    && end == BodyEnd(s, i.store) + 2 <= |x.new_.code| && s.at[0] <= BodyEnd(s, i.store)
    && Guard(x, s, p, i.receiver) && JumpsTo(x.new_.code, p, BodyEnd(s, i.store) + 1)
    && Spills(x, p + 1, i.receiver, i.args)
    && x.new_.code[BodyEnd(s, i.store)].Jump? && JumpsTo(x.new_.code, BodyEnd(s, i.store), end)
    && x.new_.code[BodyEnd(s, i.store) + 1] == i
  }

  ghost predicate Guard(x: Rewrite, s: Site, p: nat, receiver: Operand)
    requires p < |x.new_.code|
  {
    && x.new_.code[p].JumpNotMemberOf? && x.new_.code[p].operand == receiver
    && LiteralIs(x, x.new_.code[p].class_, s.class_)
  }

  ghost predicate Spills(x: Rewrite, p: nat, receiver: Operand, args: seq<Operand>)
    requires p + 1 + |args| <= |x.new_.code|
  {
    && x.new_.code[p] == Copy(receiver, Temp(x.base))
    && forall a: nat :: a < |args| ==> SpillsArg(x, p, args, a)
  }

  ghost predicate SpillsArg(x: Rewrite, p: nat, args: seq<Operand>, a: nat)
    requires p + 1 + |args| <= |x.new_.code| && a < |args|
  {
    x.new_.code[p + 1 + a] == Copy(args[|args| - 1 - a], Temp(x.base + 1 + a))
  }

  ghost predicate Expansion(x: Rewrite)
  {
    Plain(x) && Spliced(x)
  }

  ghost predicate Spliced(x: Rewrite)
  {
    && |x.start| == |x.orig.code| + 1 && x.start[0] == 0 && x.start[|x.orig.code|] == |x.new_.code|
    && x.base >= 2 && x.orig.literals <= x.new_.literals
    && x.new_.slotBase == x.orig.slotBase && x.new_.superClass == x.orig.superClass
    && forall k {:trigger x.orig.code[k]} :: 0 <= k < |x.orig.code| ==>
         CallerInstr(x.orig, x.base, x.orig.code[k]) && if k in x.sites then SiteAt(x, k, x.sites[k]) else RawAt(x, k)
  }

  // ----- what it rests on -----

  /** Sending the selector to an instance of the guard class runs the callee. */
  ghost predicate Dispatches(w: World, selector: Value, class_: Value, callee: Method)
  {
    forall self: Value, args: seq<Value>, h: Heap, v: Value, h': Heap
      {:trigger Answers(w, callee, Entry(w, self, args, h), v, false, h')} ::
      w.classOf(h, self) == class_ && |args| == callee.argsSize ==>
        (w.send(selector, None, self, args, h) == Some((v, h')) <==>
          Answers(w, callee, Entry(w, self, args, h), v, false, h'))
  }

  ghost predicate SameInputs(m: Method, f: Frame, g: Frame)
  {
    forall i: nat {:trigger Get(f, i)} {:trigger Get(g, i)} :: 1 <= i < 2 + m.argsSize ==> Get(f, i) == Get(g, i)
  }

  /** For instances of the class, self and arguments decide the outcome: what the temporaries
      held on entry does not. */
  ghost predicate IgnoresEntryTemps(w: World, class_: Value, m: Method)
  {
    forall f: Frame, g: Frame, h: Heap, v: Value, h': Heap
      {:trigger Answers(w, m, Running(0, f, h), v, false, h'), Answers(w, m, Running(0, g, h), v, false, h')} ::
      SameInputs(m, f, g) && w.classOf(h, Get(f, SELF_INDEX)) == class_ ==>
        (Answers(w, m, Running(0, f, h), v, false, h') <==> Answers(w, m, Running(0, g, h), v, false, h'))
  }

  ghost predicate SitesSound(w: World, x: Rewrite)
  {
    forall k {:trigger x.sites[k]} :: k in x.sites && k < |x.orig.code| && x.orig.code[k].Send? ==>
      Dispatches(w, LiteralAt(x.orig, x.orig.code[k].selector), x.sites[k].class_, x.sites[k].callee) &&
        IgnoresEntryTemps(w, x.sites[k].class_, x.sites[k].callee)
  }

  // ----- instructions outside the sites -----

  /** c of the original and d of the rewriting are at the same point. */
  ghost predicate Alike(x: Rewrite, c: Conf, d: Conf)
  {
    match c
    case Running(k, f, h) => k < |x.start| && d.Running? && d.pc == x.start[k] && d.heap == h &&
      Below(x.base, f, d.frame)
    case _ => d == c
  }

  lemma ReadBelow(w: World, x: Rewrite, f: Frame, g: Frame, h: Heap, op: Operand)
    requires Expansion(x) && Below(x.base, f, g) && CallerOperand(x.orig, x.base, op)
    ensures Read(w, x.orig, f, h, op) == Read(w, x.new_, g, h, op)
  {
    assert Get(f, SELF_INDEX) == Get(g, SELF_INDEX) && Get(f, CONTEXT_INDEX) == Get(g, CONTEXT_INDEX);
  }

  lemma StoredBelow(w: World, x: Rewrite, f: Frame, g: Frame, h: Heap, op: Option<Operand>, v: Value, k: nat, j: nat)
    requires Expansion(x) && Below(x.base, f, g) && (op.Some? ==> CallerOperand(x.orig, x.base, op.value))
    ensures Stored(w, x.orig, k, f, h, op, v).Running? && Stored(w, x.new_, j, g, h, op, v).Running?
    ensures Stored(w, x.orig, k, f, h, op, v).pc == k + 1 && Stored(w, x.new_, j, g, h, op, v).pc == j + 1
    ensures Stored(w, x.orig, k, f, h, op, v).heap == Stored(w, x.new_, j, g, h, op, v).heap
    ensures Below(x.base, Stored(w, x.orig, k, f, h, op, v).frame, Stored(w, x.new_, j, g, h, op, v).frame)
  {
    assert Get(f, SELF_INDEX) == Get(g, SELF_INDEX) && Get(f, CONTEXT_INDEX) == Get(g, CONTEXT_INDEX);
    var f', g' := Stored(w, x.orig, k, f, h, op, v).frame, Stored(w, x.new_, j, g, h, op, v).frame;
    forall i: nat | i < x.base ensures Get(f', i) == Get(g', i) { assert Get(f, i) == Get(g, i); }
  }

  lemma ArgsBelow(w: World, x: Rewrite, f: Frame, g: Frame, h: Heap, ops: seq<Operand>)
    requires Expansion(x) && Below(x.base, f, g) && CallerOperands(x.orig, x.base, ops)
    ensures ReadArgs(w, x.orig, f, h, ops) == ReadArgs(w, x.new_, g, h, ops)
  {
    hide Expansion, Below, CallerOperand, Read;
    var a, b := ReadArgs(w, x.orig, f, h, ops), ReadArgs(w, x.new_, g, h, ops);
    forall i | 0 <= i < |ops| ensures a[i] == b[i] { ReadBelow(w, x, f, g, h, ops[|ops| - 1 - i]); }
  }

  lemma LiteralKept(x: Rewrite, i: nat)
    requires Expansion(x) && i < |x.orig.literals|
    ensures LiteralAt(x.orig, i) == LiteralAt(x.new_, i)
  {}

  /** The same send, from the original and from the rewriting, at any position. */
  lemma SendBelow(w: World, x: Rewrite, f: Frame, g: Frame, h: Heap, i: Instr, k: nat, j: nat)
    requires Expansion(x) && Below(x.base, f, g) && i.Send? && CallerInstr(x.orig, x.base, i)
    requires k + 1 < |x.start| && x.start[k + 1] == j + 1
    ensures Alike(x, SendStep(w, x.orig, k, f, h, i), SendStep(w, x.new_, j, g, h, i))
  {
    ReadBelow(w, x, f, g, h, i.receiver);
    ArgsBelow(w, x, f, g, h, i.args);
    LiteralKept(x, i.selector);
    hide Below, CallerOperand, CallerOperands, Read, ReadArgs, Stored, RawAt, SiteAt;
    match w.send(LiteralAt(x.orig, i.selector), if i.receiver.Super? then Some(x.orig.superClass)
      else None, Read(w, x.orig, f, h, i.receiver), ReadArgs(w, x.orig, f, h, i.args), h)
    case None =>
    case Some((v, h')) => StoredBelow(w, x, f, g, h', i.store, v, k, j);
  }

  lemma RawStep(w: World, x: Rewrite, k: nat, f: Frame, h: Heap, g: Frame)
    requires Expansion(x) && k <= |x.orig.code| && k !in x.sites && Below(x.base, f, g)
    ensures Alike(x, Step(w, x.orig, Running(k, f, h)), Step(w, x.new_, Running(x.start[k], g, h)))
  {
    hide Below, CallerOperand, CallerOperands, Read, Stored, SendStep, SiteAt, JumpsTo;
    if k == |x.orig.code| {
      SelfKept(x, f, g);
    } else {
      assert CallerInstr(x.orig, x.base, x.orig.code[k]) && RawAt(x, k);
      match x.orig.code[k]
      case Copy(s, d) =>
        ReadBelow(w, x, f, g, h, s);
        StoredBelow(w, x, f, g, h, Some(d), Read(w, x.orig, f, h, s), k, x.start[k]);
      case Send(_, _, _, _) => SendBelow(w, x, f, g, h, x.orig.code[k], k, x.start[k]);
      case Return(op) => ReadBelow(w, x, f, g, h, op);
      case OuterReturn(op) => ReadBelow(w, x, f, g, h, op);
      case Jump(_) => JumpBelow(x, k, f, h, g);
      case JumpNotMemberOf(c, op, _) =>
        ReadBelow(w, x, f, g, h, op);
        LiteralKept(x, c);
        JumpBelow(x, k, f, h, g);
    }
  }

  lemma SelfKept(x: Rewrite, f: Frame, g: Frame)
    requires Below(x.base, f, g) && x.base >= 2
    ensures Get(f, SELF_INDEX) == Get(g, SELF_INDEX)
  {}

  lemma JumpBelow(x: Rewrite, k: nat, f: Frame, h: Heap, g: Frame)
    requires |x.start| == |x.orig.code| + 1 && k < |x.orig.code| && JumpKept(x, k) && Below(x.base, f, g)
    ensures Alike(x, JumpStep(x.orig.code, Running(k, f, h)), JumpStep(x.new_.code, Running(x.start[k], g, h)))
  {
    hide Below;
    TargetIs(x.new_.code, x.start[k], x.start[Target(x.orig.code, k).value]);
  }

  // ----- inlined sites -----

  /** The receiver and the first a arguments are in the inline area. */
  ghost predicate Spilled(x: Rewrite, f: Frame, g: Frame, self: Value, args: seq<Value>, a: nat)
    requires a <= |args|
  {
    && Below(x.base, f, g) && Get(g, x.base) == self
    && forall i: nat {:trigger args[i]} :: i < a ==> Get(g, x.base + 1 + i) == args[i]
  }

  lemma {:induction false} SpillRuns(w: World, x: Rewrite, p: nat, receiver: Operand, ops: seq<Operand>, f: Frame,
      h: Heap, a: nat) returns (g: Frame)
    requires Expansion(x) && p + 1 + |ops| <= |x.new_.code| && Spills(x, p, receiver, ops) && a <= |ops|
    requires CallerOperand(x.orig, x.base, receiver) && CallerOperands(x.orig, x.base, ops)
    ensures Steps(w, x.new_, Running(p, f, h), 1 + a) == Running(p + 1 + a, g, h)
    ensures Spilled(x, f, g, Read(w, x.new_, f, h, receiver), ReadArgs(w, x.new_, f, h, ops), a)
    decreases a
  {
    hide Expansion, CallerOperand, CallerOperands, Read, ReadArgs, Below;
    var self, args := Read(w, x.new_, f, h, receiver), ReadArgs(w, x.new_, f, h, ops);
    var c := Running(p, f, h);
    if a == 0 {
      g := f[x.base := self];
      assert Step(w, x.new_, c) == Running(p + 1, g, h);
      Unroll(w, x.new_, c);
      BelowAbove(x.base, f, x.base, self);
    } else {
      var e := SpillRuns(w, x, p, receiver, ops, f, h, a - 1);
      var op := ops[|ops| - a];
      var d := Running(p + a, e, h);
      assert SpillsArg(x, p, ops, a - 1);
      var v := Read(w, x.new_, e, h, op);
      assert v == args[a - 1] by { assert CallerOperand(x.orig, x.base, op) by { OperandIn(x, ops, |ops| - a);
        } ReadAgain(w, x, f, e, h, op); ArgIs(w, x, f, h, ops, a - 1); }
      g := e[x.base + a := v];
      assert Step(w, x.new_, d) == Running(p + 1 + a, g, h);
      StepsAdd(w, x.new_, c, a, 1);
      Unroll(w, x.new_, d);
      BelowAbove(x.base, e, x.base + a, v);
      BelowTrans(x.base, f, e, g);
      forall i: nat | i < a ensures Get(g, x.base + 1 + i) == args[i] {
        if i < a - 1 { assert Get(e, x.base + 1 + i) == args[i]; }
      }
    }
  }

  lemma OperandIn(x: Rewrite, ops: seq<Operand>, i: nat)
    requires CallerOperands(x.orig, x.base, ops) && i < |ops|
    ensures CallerOperand(x.orig, x.base, ops[i])
  {}

  lemma ArgIs(w: World, x: Rewrite, f: Frame, h: Heap, ops: seq<Operand>, i: nat)
    requires i < |ops|
    ensures |ReadArgs(w, x.new_, f, h, ops)| == |ops|
    ensures ReadArgs(w, x.new_, f, h, ops)[i] == Read(w, x.new_, f, h, ops[|ops| - 1 - i])
  {}

  lemma BelowAbove(base: nat, f: Frame, i: nat, v: Value)
    requires i >= base
    ensures Below(base, f, f[i := v])
  {}

  lemma ReadAgain(w: World, x: Rewrite, f: Frame, g: Frame, h: Heap, op: Operand)
    requires Expansion(x) && Below(x.base, f, g) && CallerOperand(x.orig, x.base, op)
    ensures Read(w, x.new_, f, h, op) == Read(w, x.new_, g, h, op)
  {
    assert Get(f, SELF_INDEX) == Get(g, SELF_INDEX) && Get(f, CONTEXT_INDEX) == Get(g, CONTEXT_INDEX);
  }

  /** The callee's frame as it lies in the inline area of g. */
  ghost function AreaFrame(x: Rewrite, s: Site, g: Frame): Frame
    requires x.base >= 1
  {
    Slots(seq(2 + s.callee.argsSize + s.callee.tempsSize, i requires 0 <= i => Get(g, x.base + i - 1)))
  }

  /** A guard hit reaches the body with the callee's inputs in place. */
  lemma GuardHit(w: World, x: Rewrite, k: nat, f: Frame, h: Heap, g: Frame) returns (m: nat, e: Frame)
    requires Expansion(x) && k < |x.orig.code| && k in x.sites && SiteAt(x, k, x.sites[k]) && Below(x.base, f, g)
    requires CallerInstr(x.orig, x.base, x.orig.code[k])
    requires w.classOf(h, Read(w, x.orig, f, h, x.orig.code[k].receiver)) == x.sites[k].class_
    ensures m >= 1 && Steps(w, x.new_, Running(x.start[k], g, h), m) == Running(x.sites[k].at[0], e, h)
    ensures Below(x.base, g, e)
    ensures Housed(x, x.sites[k], AreaFrame(x, x.sites[k], e), e)
    ensures SameInputs(x.sites[k].callee, AreaFrame(x, x.sites[k], e),
      Entry(w, Read(w, x.orig, f, h, x.orig.code[k].receiver), ReadArgs(w, x.orig, f, h, x.orig.code[k].args), h).frame)
  {
    var s, i := x.sites[k], x.orig.code[k];
    var p := x.start[k];
    ReadBelow(w, x, f, g, h, i.receiver);
    ArgsBelow(w, x, f, g, h, i.args);
    e := SpillRuns(w, x, p + 1, i.receiver, i.args, g, h, |i.args|);
    m := 2 + |i.args|;
    hide Expansion, Body, BodyEnd, Read, ReadArgs, CallerInstr, Spills;
    assert Step(w, x.new_, Running(p, g, h)) == Running(p + 1, g, h);
    assert Steps(w, x.new_, Running(p, g, h), m) == Steps(w, x.new_, Running(p + 1, g, h), m - 1);
    InputsSpilled(w, x, s, g, e, Read(w, x.orig, f, h, i.receiver), ReadArgs(w, x.orig, f, h, i.args), h);
  }

  lemma InputsSpilled(w: World, x: Rewrite, s: Site, f: Frame, g: Frame, self: Value, args: seq<Value>, h: Heap)
    requires |args| == s.callee.argsSize && x.base >= 2 && Spilled(x, f, g, self, args, |args|)
    ensures Housed(x, s, AreaFrame(x, s, g), g)
    ensures SameInputs(s.callee, AreaFrame(x, s, g), Entry(w, self, args, h).frame)
  {
    var a, b := AreaFrame(x, s, g), Entry(w, self, args, h).frame;
    forall i: nat | 1 <= i < 2 + s.callee.argsSize ensures Get(a, i) == Get(b, i) {
      if i > 1 { assert Get(g, x.base + 1 + (i - 2)) == args[i - 2]; }
    }
  }

  lemma GuardMiss(w: World, x: Rewrite, k: nat, f: Frame, h: Heap, g: Frame)
    requires Expansion(x) && k < |x.orig.code| && k in x.sites && SiteAt(x, k, x.sites[k]) && Below(x.base, f, g)
    requires CallerInstr(x.orig, x.base, x.orig.code[k])
    requires w.classOf(h, Read(w, x.orig, f, h, x.orig.code[k].receiver)) != x.sites[k].class_
    ensures Alike(x, Step(w, x.orig, Running(k, f, h)), Steps(w, x.new_, Running(x.start[k], g, h), 2))
  {
    var s, i := x.sites[k], x.orig.code[k];
    var p, q := x.start[k], BodyEnd(s, i.store) + 1;
    ReadBelow(w, x, f, g, h, i.receiver);
    TargetIs(x.new_.code, p, q);
    SendBelow(w, x, f, g, h, i, k, q);
    hide Expansion, Body, BodyEnd, Read, Spills, Below, SendStep, JumpsTo;
    var c := Running(p, g, h);
    var d := Running(q, g, h);
    assert Step(w, x.new_, c) == d;
    assert Step(w, x.new_, d) == SendStep(w, x.new_, q, g, h, i);
    Unroll(w, x.new_, c);
  }

  /** From the end of the body, one jump brings the run to the next original instruction. */
  lemma BodyLeft(w: World, x: Rewrite, k: nat, f: Frame, h: Heap, g: Frame, v: Value, d: Conf)
    requires Expansion(x) && k < |x.orig.code| && k in x.sites && SiteAt(x, k, x.sites[k]) && Below(x.base, f, g)
    requires CallerInstr(x.orig, x.base, x.orig.code[k])
    requires Delivered(w, x, x.sites[k], x.orig.code[k].store, v, h, g, d)
    ensures d.Running? && Alike(x, Stored(w, x.orig, k, f, h, x.orig.code[k].store, v), Step(w, x.new_, d))
  {
    var s, i := x.sites[k], x.orig.code[k];
    var e: Frame :| Below(x.base, g, e) && d == AtBodyEnd(w, x, s, i.store, e, h, v);
    BelowTrans(x.base, f, g, e);
    StoredBelow(w, x, f, e, h, i.store, v, k, BodyEnd(s, i.store));
    TargetIs(x.new_.code, BodyEnd(s, i.store), x.start[k + 1]);
    hide Expansion, Body, BodyEnd, Spills, Below, JumpsTo, CallerInstr, Guard;
  }

  /** A site whose send comes back: the rewriting gets to the same point. */
  lemma SiteForward(w: World, x: Rewrite, k: nat, f: Frame, h: Heap, g: Frame) returns (m: nat)
    requires Expansion(x) && SitesSound(w, x) && k < |x.orig.code| && k in x.sites && Below(x.base, f, g)
    requires Step(w, x.orig, Running(k, f, h)).Running?
    ensures m >= 1 && Alike(x, Step(w, x.orig, Running(k, f, h)), Steps(w, x.new_, Running(x.start[k], g, h), m))
  {
    var s, i := x.sites[k], x.orig.code[k];
    assert SiteAt(x, k, s) && CallerInstr(x.orig, x.base, i);
    hide Expansion, Below, Read, ReadArgs, CallerInstr, Body, BodyEnd, Stored, Entry, Spills, Guard;
    var self, args := Read(w, x.orig, f, h, i.receiver), ReadArgs(w, x.orig, f, h, i.args);
    if w.classOf(h, self) != s.class_ {
      GuardMiss(w, x, k, f, h, g);
      m := 2;
    } else {
      var r := w.send(LiteralAt(x.orig, i.selector), None, self, args, h).value;
      var a, e := GuardHit(w, x, k, f, h, g);
      var n := CalleeAnswers(w, LiteralAt(x.orig, i.selector), s, self, args, h, AreaFrame(x, s, e), r.0, r.1);
      m := SiteHit(w, x, k, f, h, g, a, e, n);
    }
  }

  /** From a guard hit with the callee answering: through the body and past the fallback. */
  lemma SiteHit(w: World, x: Rewrite, k: nat, f: Frame, h: Heap, g: Frame, a: nat, e: Frame, n: nat) returns (m: nat)
    requires Expansion(x) && k < |x.orig.code| && k in x.sites && SiteAt(x, k, x.sites[k])
    requires Below(x.base, f, g) && Below(x.base, g, e) && CallerInstr(x.orig, x.base, x.orig.code[k])
    requires a >= 1 && Steps(w, x.new_, Running(x.start[k], g, h), a) == Running(x.sites[k].at[0], e, h)
    requires Housed(x, x.sites[k], AreaFrame(x, x.sites[k], e), e)
    requires Steps(w, x.sites[k].callee, Running(0, AreaFrame(x, x.sites[k], e), h), n).Done?
    ensures m >= 1
    ensures var r := Steps(w, x.sites[k].callee, Running(0, AreaFrame(x, x.sites[k], e), h), n);
      Alike(x, Stored(w, x.orig, k, f, r.heap, x.orig.code[k].store, r.value),
      Steps(w, x.new_, Running(x.start[k], g, h), m))
  {
    hide Expansion, Below, CallerInstr, BodyAt, BodyEnd, Stored, Delivered, Step, Steps, Guard, Spills, JumpsTo, Housed,
      AreaFrame, SelfCopy, CanFallThrough;
    var s, i := x.sites[k], x.orig.code[k];
    BodyEntered(x, s, i.store);
    Sized(x);
    hide Body, SiteAt;
    var r := Steps(w, s.callee, Running(0, AreaFrame(x, s, e), h), n);
    var b := BodyRuns(w, x, s, i.store, Running(0, AreaFrame(x, s, e), h), e, n);
    var d := Steps(w, x.new_, Running(s.at[0], e, h), b);
    DeliveredFrom(w, x, s, i.store, r.value, r.heap, g, e, d);
    BodyLeft(w, x, k, f, r.heap, g, r.value, d);
    m := a + b + 1;
    StepsAdd(w, x.new_, Running(x.start[k], g, h), a, b);
    StepsAdd(w, x.new_, Running(x.start[k], g, h), a + b, 1);
    Unroll(w, x.new_, d);
  }

  lemma BodyEntered(x: Rewrite, s: Site, store: Option<Operand>)
    requires Body(x, s, store)
    ensures |s.at| == |s.callee.code| + 1 && s.callee.code != []
  {}

  lemma SelfIs(w: World, m: Method, self: Value, args: seq<Value>, h: Heap, inner: Frame)
    requires SameInputs(m, inner, Entry(w, self, args, h).frame)
    ensures Get(inner, SELF_INDEX) == self && Get(Entry(w, self, args, h).frame, SELF_INDEX) == self
  {
    assert Get(Entry(w, self, args, h).frame, SELF_INDEX) == self;
  }

  /** What the send answers, the callee answers from the frame in the inline area. */
  lemma CalleeAnswers(w: World, selector: Value, s: Site, self: Value, args: seq<Value>, h: Heap, inner: Frame,
      v: Value, h': Heap) returns (n: nat)
    requires Dispatches(w, selector, s.class_, s.callee) && IgnoresEntryTemps(w, s.class_, s.callee)
    requires w.classOf(h, self) == s.class_ && |args| == s.callee.argsSize
    requires SameInputs(s.callee, inner, Entry(w, self, args, h).frame)
    requires w.send(selector, None, self, args, h) == Some((v, h'))
    ensures Steps(w, s.callee, Running(0, inner, h), n) == Done(v, false, h')
  {
    SelfIs(w, s.callee, self, args, h, inner);
    hide SameInputs, Steps;
    var entry := Entry(w, self, args, h);
    assert Answers(w, s.callee, entry, v, false, h');
    assert entry == Running(0, entry.frame, h);
    assert Answers(w, s.callee, Running(0, entry.frame, h), v, false, h');
    assert Answers(w, s.callee, Running(0, inner, h), v, false, h');
    n :| Steps(w, s.callee, Running(0, inner, h), n) == Done(v, false, h');
  }

  /** A site the rewriting gets through is a send that comes back. */
  lemma SiteBackward(w: World, x: Rewrite, k: nat, f: Frame, h: Heap, g: Frame, n: nat)
    requires Expansion(x) && SitesSound(w, x) && k < |x.orig.code| && k in x.sites && Below(x.base, f, g)
    requires Steps(w, x.new_, Running(x.start[k], g, h), n).Done?
    ensures Step(w, x.orig, Running(k, f, h)).Running?
  {
    var s, i := x.sites[k], x.orig.code[k];
    assert SiteAt(x, k, s) && CallerInstr(x.orig, x.base, i);
    hide Expansion, Below, Read, ReadArgs, CallerInstr, Body, BodyEnd, Entry, Spills, Guard, Step;
    var self, args := Read(w, x.orig, f, h, i.receiver), ReadArgs(w, x.orig, f, h, i.args);
    SendStepIs(w, x.orig, k, f, h);
    if w.classOf(h, self) != s.class_ {
      GuardMiss(w, x, k, f, h, g);
      Finishes(w, x.new_, Running(x.start[k], g, h), 2, n);
    } else {
      var a, e := GuardHit(w, x, k, f, h, g);
      Later(w, x.new_, Running(x.start[k], g, h), a, n);
      BodyEntered(x, s, i.store);
      Sized(x);
      var b := BodyComesBack(w, x, s, i.store, Running(0, AreaFrame(x, s, e), h), e, n - a);
      SendComesBack(w, LiteralAt(x.orig, i.selector), x, s, i.store, self, args, h, AreaFrame(x, s, e), e, b);
    }
  }

  lemma SendStepIs(w: World, m: Method, k: nat, f: Frame, h: Heap)
    requires k < |m.code| && m.code[k].Send?
    ensures Step(w, m, Running(k, f, h)) == SendStep(w, m, k, f, h, m.code[k])
  {}

  lemma SendComesBack(w: World, selector: Value, x: Rewrite, s: Site, store: Option<Operand>, self: Value,
      args: seq<Value>, h: Heap, inner: Frame, e: Frame, b: nat)
    requires Plain(x) && Body(x, s, store) && Housed(x, s, inner, e)
    requires Dispatches(w, selector, s.class_, s.callee) && IgnoresEntryTemps(w, s.class_, s.callee)
    requires w.classOf(h, self) == s.class_ && |args| == s.callee.argsSize
    requires SameInputs(s.callee, inner, Entry(w, self, args, h).frame)
    requires Steps(w, s.callee, Running(0, inner, h), b).Done?
    ensures w.send(selector, None, self, args, h).Some?
  {
    BodyEntered(x, s, store);
    SelfIs(w, s.callee, self, args, h, inner);
    hide SameInputs, Steps, Body, Plain, Housed;
    var _ := BodyRuns(w, x, s, store, Running(0, inner, h), e, b);
    var entry := Entry(w, self, args, h);
    var r := Steps(w, s.callee, Running(0, inner, h), b);
    assert Answers(w, s.callee, Running(0, inner, h), r.value, false, r.heap);
    assert entry == Running(0, entry.frame, h);
    assert Answers(w, s.callee, Running(0, entry.frame, h), r.value, false, r.heap);
    assert Answers(w, s.callee, entry, r.value, false, r.heap);
  }

  // ----- runs -----

  /** A run that is still going after j steps and finished after n has j < n. */
  lemma Later(w: World, m: Method, c: Conf, j: nat, n: nat)
    requires Steps(w, m, c, j).Running? && Steps(w, m, c, n).Done?
    ensures j < n && Steps(w, m, c, n) == Steps(w, m, Steps(w, m, c, j), n - j)
  {
    if n <= j { StepsAdd(w, m, c, n, j - n); } else { StepsAdd(w, m, c, j, n - j); }
  }

  /** A run that ends well is not stuck at any point. */
  lemma Finishes(w: World, m: Method, c: Conf, j: nat, n: nat)
    requires Steps(w, m, c, n).Done?
    ensures !Steps(w, m, c, j).Stuck?
  {
    if n <= j { StepsAdd(w, m, c, n, j - n); } else { StepsAdd(w, m, c, j, n - j); }
  }

  lemma {:induction false} Forward(w: World, x: Rewrite, c: Conf, d: Conf, n: nat) returns (m: nat)
    requires Expansion(x) && SitesSound(w, x) && Alike(x, c, d)
    requires Steps(w, x.orig, c, n).Done?
    ensures Steps(w, x.new_, d, m) == Steps(w, x.orig, c, n)
    decreases n
  {
    hide Expansion, SitesSound, Step, Below;
    if c.Done? {
      m := 0;
    } else {
      Sized(x);
      var c' := Step(w, x.orig, c);
      assert Steps(w, x.orig, c, n) == Steps(w, x.orig, c', n - 1);
      var j: nat;
      if c.pc in x.sites && c.pc < |x.orig.code| {
        RunsOn(w, x, c, n);
        j := SiteForward(w, x, c.pc, c.frame, c.heap, d.frame);
      } else {
        NoSite(w, x, c, d);
        j := 1;
        Unroll(w, x.new_, d);
      }
      var k := Forward(w, x, c', Steps(w, x.new_, d, j), n - 1);
      m := j + k;
      StepsAdd(w, x.new_, d, j, k);
    }
  }

  lemma Sized(x: Rewrite)
    requires Expansion(x)
    ensures |x.start| == |x.orig.code| + 1 && Plain(x)
  {}

  lemma NoSite(w: World, x: Rewrite, c: Conf, d: Conf)
    requires Expansion(x) && c.Running? && Alike(x, c, d) && !(c.pc in x.sites && c.pc < |x.orig.code|)
    ensures Alike(x, Step(w, x.orig, c), Step(w, x.new_, d))
  {
    hide Below, Step, SiteAt, RawAt, CallerInstr;
    if c.pc == |x.orig.code| {
      SelfKept(x, c.frame, d.frame);
      EndStep(w, x.orig, c);
      EndStep(w, x.new_, d);
    } else {
      RawStep(w, x, c.pc, c.frame, c.heap, d.frame);
    }
  }

  lemma EndStep(w: World, m: Method, c: Conf)
    requires c.Running? && c.pc == |m.code|
    ensures Step(w, m, c) == Done(Get(c.frame, SELF_INDEX), false, c.heap)
  {}

  /** An inlined send is not the last thing a finished run does. */
  lemma RunsOn(w: World, x: Rewrite, c: Conf, n: nat)
    requires Expansion(x) && c.Running? && c.pc < |x.orig.code| && c.pc in x.sites && Steps(w, x.orig, c, n).Done?
    ensures Step(w, x.orig, c).Running?
  {
    assert SiteAt(x, c.pc, x.sites[c.pc]);
    hide Expansion, SiteAt;
    Finishes(w, x.orig, c, 1, n);
    Unroll(w, x.orig, c);
    SendStepIs(w, x.orig, c.pc, c.frame, c.heap);
  }

  lemma {:induction false} Backward(w: World, x: Rewrite, c: Conf, d: Conf, n: nat) returns (m: nat)
    requires Expansion(x) && SitesSound(w, x) && Alike(x, c, d)
    requires Steps(w, x.new_, d, n).Done?
    ensures Steps(w, x.orig, c, m) == Steps(w, x.new_, d, n)
    decreases n
  {
    hide Expansion, SitesSound, Step, Below;
    if !c.Running? {
      m := 0;
    } else {
      Sized(x);
      var c' := Step(w, x.orig, c);
      var j: nat;
      if c.pc in x.sites && c.pc < |x.orig.code| {
        SiteBackward(w, x, c.pc, c.frame, c.heap, d.frame, n);
        j := SiteForward(w, x, c.pc, c.frame, c.heap, d.frame);
      } else {
        NoSite(w, x, c, d);
        j := 1;
        Unroll(w, x.new_, d);
      }
      var d' := Steps(w, x.new_, d, j);
      if d'.Running? {
        Later(w, x.new_, d, j, n);
        var k := Backward(w, x, c', d', n - j);
        m := k + 1;
      } else {
        Settled(w, x.new_, d, j, n);
        m := 1;
        Unroll(w, x.orig, c);
      }
    }
  }

  lemma Settled(w: World, m: Method, c: Conf, j: nat, n: nat)
    requires !Steps(w, m, c, j).Running? && Steps(w, m, c, n).Done?
    ensures Steps(w, m, c, j) == Steps(w, m, c, n)
  {
    if n <= j { StepsAdd(w, m, c, n, j - n); } else { StepsAdd(w, m, c, j, n - j); }
  }

  /** The theorem: whatever the frame and heap, the rewriting answers exactly what the
      original answers, with the same heap and trace, and comes back exactly when it does. */
  lemma InliningPreservesMeaning(w: World, x: Rewrite, f: Frame, h: Heap, v: Value, outer: bool, h': Heap)
    requires Expansion(x) && SitesSound(w, x)
    ensures Answers(w, x.orig, Running(0, f, h), v, outer, h') <==> Answers(w, x.new_, Running(0, f, h), v, outer, h')
  {
    var c := Running(0, f, h);
    assert Alike(x, c, c);
    hide Expansion, SitesSound, Steps;
    if Answers(w, x.orig, c, v, outer, h') {
      var n: nat :| Steps(w, x.orig, c, n) == Done(v, outer, h');
      var m := Forward(w, x, c, c, n);
    }
    if Answers(w, x.new_, c, v, outer, h') {
      var n: nat :| Steps(w, x.new_, c, n) == Done(v, outer, h');
      var m := Backward(w, x, c, c, n);
    }
  }
}
