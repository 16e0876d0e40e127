/** What the inliner's output means: a relation between a method and its rewriting
    (guard, spilled receiver and arguments, relocated body, fallback send), and the proof
    that related methods answer alike in every run. */
module InlineMeaning {
  import opened Options
  import opened BytecodeMachine

  /** One inlined send: the guarded class and its literal index, the callee, the guard
      class's first-variable slot, and where each callee instruction starts in the output
      (the last entry is where falling off the callee's end arrives). */
  datatype Site = Site(class_: Value, classLiteral: nat, callee: Method, slotBase: nat, at: seq<nat>)

  /** start[k] is where instruction k of orig starts in new. like says which literals are taken
      for one another when callee literals are added to new's. */
  datatype Rewrite = Rewrite(
    orig: Method, new_: Method, base: nat, start: seq<nat>, sites: map<nat, Site>, like: (Value, Value) -> bool)

  // ----- the callee's side of the contract (inlineEligible) -----

  ghost predicate OperandEligible(callee: Method, op: Operand)
  {
    match op
    case Temp(i) => 2 + callee.argsSize <= i < 2 + callee.argsSize + callee.tempsSize
    case Arg(i) => 1 <= i < 2 + callee.argsSize
    case Immediate(_) => true
    case Nil => true
    case True => true
    case False => true
    case InstVar(_) => true
    case Literal(i) => i < |callee.literals|
    case Assoc(i) => i < |callee.literals|
    case _ => false
  }

  /** Control can reach the end without a return: a jump aims at it, or the last
      instruction is neither a return nor a jump. */
  ghost predicate CanFallThrough(code: Code)
  {
    || (exists i: nat :: i < |code| && JumpsTo(code, i, |code|))
    || (code == [] || (!code[|code| - 1].Return? && !code[|code| - 1].Jump?))
  }

  // ----- the shape of the output -----

  ghost predicate FirstLike(like: (Value, Value) -> bool, literals: seq<Value>, i: nat, v: Value)
  {
    && i < |literals| && like(v, literals[i])
    && forall j {:trigger literals[j]} :: 0 <= j < i ==> !like(v, literals[j])
  }

  /** Literal i of the output stands for v: it is the first like it. */
  ghost predicate LiteralIs(x: Rewrite, i: nat, v: Value)
  {
    FirstLike(x.like, x.new_.literals, i, v)
  }

  /** Only a literal itself stands for a literal. */
  ghost predicate Plain(x: Rewrite)
  {
    forall a, b {:trigger x.like(a, b)} :: x.like(a, b) <==> a == b
  }

  lemma PlainLiteral(x: Rewrite, i: nat, v: Value)
    requires Plain(x) && LiteralIs(x, i, v)
    ensures LiteralAt(x.new_, i) == v
  {}

  /** How adjustOperand remaps a callee operand: self, arguments and temporaries into the
      inline area, named variables to slots of the spilled self, literals re-interned. */
  ghost predicate Adjusted(x: Rewrite, s: Site, op: Operand, op': Operand)
  {
    OperandEligible(s.callee, op) &&
    match op
    case Temp(i) => op' == Temp(x.base + i - 1)
    case Arg(i) => op' == Temp(x.base + i - 1)
    case InstVar(i) => op' == InstVarOf(s.slotBase + i, x.base)
    case Literal(i) => op'.Literal? && LiteralIs(x, op'.index, s.callee.literals[i])
    case Assoc(i) => op'.Assoc? && LiteralIs(x, op'.index, s.callee.literals[i])
    case _ => op' == op
  }

  ghost predicate AdjustedAll(x: Rewrite, s: Site, ops: seq<Operand>, ops': seq<Operand>)
  {
    |ops| == |ops'| && forall i {:trigger ops[i]} {:trigger ops'[i]} ::
      0 <= i < |ops| ==> Adjusted(x, s, ops[i], ops'[i])
  }

  ghost predicate AdjustedStore(x: Rewrite, s: Site, op: Option<Operand>, op': Option<Operand>)
  {
    match op
    case None => op'.None?
    case Some(o) => op'.Some? && Adjusted(x, s, o, op'.value) && !o.Arg?
  }

  function FallEnd(s: Site): nat
    requires s.at != []
  {
    s.at[|s.at| - 1]
  }

  ghost predicate SelfCopy(s: Site, store: Option<Operand>)
  {
    store.Some? && CanFallThrough(s.callee.code)
  }

  ghost function BodyEnd(s: Site, store: Option<Operand>): (j: nat)
    requires s.at != []
    ensures FallEnd(s) <= j
  {
    FallEnd(s) + if SelfCopy(s, store) then 1 else 0
  }

  /** The image of callee instruction i: its instructions, and where its jumps land. */
  ghost predicate BodyAt(x: Rewrite, s: Site, store: Option<Operand>, i: nat)
    requires |s.at| == |s.callee.code| + 1 && i < |s.callee.code|
  {
    Laid(x, s, store, i) && Lands(x, s, store, i)
  }

  ghost predicate Laid(x: Rewrite, s: Site, store: Option<Operand>, i: nat)
    requires i < |s.callee.code| && i + 1 < |s.at|
  {
    match s.callee.code[i]
    case Return(op) => ReturnAt(x, s, store, i, op)
    case OuterReturn(_) => false
    case _ =>
      s.at[i + 1] == s.at[i] + 1 && s.at[i] < |x.new_.code| &&
      ImageOf(x, s, s.callee.code[i], x.new_.code[s.at[i]])
  }

  ghost predicate ImageOf(x: Rewrite, s: Site, i: Instr, image: Instr)
  {
    match i
    case Copy(src, dst) => image.Copy? && Adjusted(x, s, src, image.source) && Adjusted(x, s, dst, image.dest) &&
      !dst.Arg?
    case Send(sel, r, args, st) =>
      && image.Send? && sel < |s.callee.literals| && LiteralIs(x, image.selector, s.callee.literals[sel])
      && Adjusted(x, s, r, image.receiver) && AdjustedAll(x, s, args, image.args) &&
        AdjustedStore(x, s, st, image.store)
    case Jump(_) => image.Jump?
    case JumpNotMemberOf(k, op, _) =>
      && image.JumpNotMemberOf? && k < |s.callee.literals| && LiteralIs(x, image.class_, s.callee.literals[k])
      && Adjusted(x, s, op, image.operand)
    case _ => false
  }

  function Copies(store: Option<Operand>): nat
  {
    if store.Some? then 1 else 0
  }

  ghost predicate Exits(s: Site, store: Option<Operand>, i: nat)
  {
    i + 1 < |s.callee.code| || SelfCopy(s, store)
  }

  /** A return becomes a copy into the send's result, when it has one, and a jump past the
      rest of the body, when there is a rest. */
  ghost predicate ReturnAt(x: Rewrite, s: Site, store: Option<Operand>, i: nat, op: Operand)
    requires i + 1 < |s.at|
  {
    && OperandEligible(s.callee, op)
    && s.at[i + 1] == s.at[i] + Copies(store) + (if Exits(s, store, i) then 1 else 0) <= |x.new_.code|
    && (store.Some? ==> CopiesInto(x, s, op, x.new_.code[s.at[i]], store.value))
    && (Exits(s, store, i) ==> x.new_.code[s.at[i] + Copies(store)].Jump?)
  }

  ghost predicate CopiesInto(x: Rewrite, s: Site, op: Operand, image: Instr, dest: Operand)
  {
    image.Copy? && image.dest == dest && Adjusted(x, s, op, image.source)
  }

  ghost predicate Lands(x: Rewrite, s: Site, store: Option<Operand>, i: nat)
    requires |s.at| == |s.callee.code| + 1 && i < |s.callee.code|
  {
    && (IsJump(s.callee.code[i]) ==> LandsAlike(x, s, i))
    && (s.callee.code[i].Return? && Exits(s, store, i) ==>
      JumpsTo(x.new_.code, s.at[i] + Copies(store), BodyEnd(s, store)))
  }

  ghost predicate LandsAlike(x: Rewrite, s: Site, i: nat)
    requires |s.at| == |s.callee.code| + 1 && i < |s.callee.code|
  {
    && Target(s.callee.code, i).Some?
    && JumpsTo(x.new_.code, s.at[i], s.at[Target(s.callee.code, i).value])
  }

  ghost predicate Body(x: Rewrite, s: Site, store: Option<Operand>)
  {
    && s.callee.code != [] && |s.at| == |s.callee.code| + 1 && x.base >= 2
    && s.callee.slotBase == s.slotBase
    && (forall i {:trigger s.callee.code[i]} :: 0 <= i < |s.callee.code| ==> BodyAt(x, s, store, i))
    && FallEnd(s) <= BodyEnd(s, store) <= |x.new_.code|
    && (SelfCopy(s, store) ==> FallEnd(s) < |x.new_.code| && x.new_.code[FallEnd(s)] == Copy(Temp(x.base), store.value))
  }

  // ----- frames -----

  ghost predicate Below(base: nat, f: Frame, g: Frame)
  {
    forall i: nat {:trigger Get(f, i)} {:trigger Get(g, i)} :: i < base ==> Get(f, i) == Get(g, i)
  }

  /** The callee's slots live in the inline area. */
  ghost predicate Housed(x: Rewrite, s: Site, inner: Frame, f: Frame)
  {
    forall i: nat {:trigger Get(inner, i)} ::
      1 <= i < 2 + s.callee.argsSize + s.callee.tempsSize ==> Get(inner, i) == Get(f, x.base + i - 1)
  }

  lemma SlotRead(x: Rewrite, s: Site, inner: Frame, f: Frame, i: nat)
    requires Housed(x, s, inner, f) && 1 <= i < 2 + s.callee.argsSize + s.callee.tempsSize
    ensures Get(inner, i) == Get(f, x.base + i - 1)
  {}

  lemma ReadAdjusted(w: World, x: Rewrite, s: Site, inner: Frame, f: Frame, h: Heap, op: Operand, op': Operand)
    requires Plain(x) && Housed(x, s, inner, f) && Adjusted(x, s, op, op') && s.callee.slotBase == s.slotBase
    ensures Read(w, s.callee, inner, h, op) == Read(w, x.new_, f, h, op')
  {
    hide Housed, Plain, LiteralIs, Get;
    match op
    case Temp(i) => SlotRead(x, s, inner, f, i);
    case Arg(i) => SlotRead(x, s, inner, f, i);
    case InstVar(_) => SlotRead(x, s, inner, f, SELF_INDEX);
    case Literal(i) => PlainLiteral(x, op'.index, s.callee.literals[i]);
    case Assoc(i) => PlainLiteral(x, op'.index, s.callee.literals[i]);
    case _ =>
  }

  lemma SlotWritten(x: Rewrite, s: Site, inner: Frame, f: Frame, i: nat, v: Value)
    requires Housed(x, s, inner, f) && 1 <= i && x.base >= 2
    ensures Housed(x, s, inner[i := v], f[x.base + i - 1 := v]) && Below(x.base, f, f[x.base + i - 1 := v])
  {
    var inner', f' := inner[i := v], f[x.base + i - 1 := v];
    forall k: nat | 1 <= k < 2 + s.callee.argsSize + s.callee.tempsSize
      ensures Get(inner', k) == Get(f', x.base + k - 1) {
      if k != i { assert Get(inner, k) == Get(f, x.base + k - 1); }
    }
  }

  lemma WriteAdjusted(w: World, x: Rewrite, s: Site, inner: Frame, f: Frame, h: Heap, op: Operand, op': Operand,
      v: Value)
    requires Plain(x) && Housed(x, s, inner, f) && Adjusted(x, s, op, op') && s.callee.slotBase == s.slotBase &&
      x.base >= 2
    ensures Housed(x, s, WriteFrame(inner, op, v), WriteFrame(f, op', v))
    ensures WriteHeap(w, s.callee, inner, h, op, v) == WriteHeap(w, x.new_, f, h, op', v)
    ensures Below(x.base, f, WriteFrame(f, op', v))
  {
    BelowSelf(x.base, f);
    hide Housed, Below, Plain, LiteralIs, Get;
    match op
    case Temp(i) => SlotWritten(x, s, inner, f, i, v);
    case Arg(i) => SlotWritten(x, s, inner, f, i, v);
    case InstVar(_) => SlotRead(x, s, inner, f, SELF_INDEX);
    case Assoc(i) => PlainLiteral(x, op'.index, s.callee.literals[i]);
    case _ =>
  }

  lemma StoredAdjusted(w: World, x: Rewrite, s: Site, inner: Frame, f: Frame, h: Heap, op: Option<Operand>,
      op': Option<Operand>, v: Value, i: nat, j: nat)
    requires Plain(x) && Housed(x, s, inner, f) && AdjustedStore(x, s, op, op') && s.callee.slotBase == s.slotBase &&
      x.base >= 2
    ensures Stored(w, s.callee, i, inner, h, op, v).Running? && Stored(w, x.new_, j, f, h, op', v).Running?
    ensures Stored(w, s.callee, i, inner, h, op, v).pc == i + 1 && Stored(w, x.new_, j, f, h, op', v).pc == j + 1
    ensures Stored(w, s.callee, i, inner, h, op, v).heap == Stored(w, x.new_, j, f, h, op', v).heap
    ensures Housed(x, s, Stored(w, s.callee, i, inner, h, op, v).frame, Stored(w, x.new_, j, f, h, op', v).frame)
    ensures Below(x.base, f, Stored(w, x.new_, j, f, h, op', v).frame)
  {
    hide Housed, Adjusted, WriteFrame, WriteHeap, Below;
    match op
    case None => BelowSelf(x.base, f);
    case Some(o) => WriteAdjusted(w, x, s, inner, f, h, o, op'.value, v);
  }

  lemma BelowSelf(base: nat, f: Frame)
    ensures Below(base, f, f)
  {}

  lemma ArgsAdjusted(w: World, x: Rewrite, s: Site, inner: Frame, f: Frame, h: Heap, ops: seq<Operand>,
      ops': seq<Operand>)
    requires Plain(x) && Housed(x, s, inner, f) && AdjustedAll(x, s, ops, ops') && s.callee.slotBase == s.slotBase
    ensures ReadArgs(w, s.callee, inner, h, ops) == ReadArgs(w, x.new_, f, h, ops')
  {
    hide Housed, Adjusted, Read;
    var a, b := ReadArgs(w, s.callee, inner, h, ops), ReadArgs(w, x.new_, f, h, ops');
    forall i | 0 <= i < |ops| ensures a[i] == b[i] {
      ReadAdjusted(w, x, s, inner, f, h, ops[|ops| - 1 - i], ops'[|ops| - 1 - i]);
    }
  }

  // ----- one callee instruction -----

  /** Conf c of the callee is mirrored by conf d of the rewritten method, entered with frame f. */
  ghost predicate Mirrors(x: Rewrite, s: Site, c: Conf, d: Conf, f: Frame)
  {
    match c
    case Running(pc, inner, h) =>
      && pc < |s.at| && d.Running? && d.pc == s.at[pc] && d.heap == h
      && Housed(x, s, inner, d.frame) && Below(x.base, f, d.frame)
    case Stuck => d.Stuck?
    case Done(_, _, _) => false
  }

  /** Except at a return, one step of the callee is one step of its image. */
  lemma BodyStep(w: World, x: Rewrite, s: Site, store: Option<Operand>, i: nat, inner: Frame, h: Heap, f: Frame)
    requires Plain(x) && Body(x, s, store) && i < |s.callee.code| && !s.callee.code[i].Return?
    requires Housed(x, s, inner, f)
    ensures Mirrors(x, s, Step(w, s.callee, Running(i, inner, h)), Step(w, x.new_, Running(s.at[i], f, h)), f)
  {
    hide Plain, LiteralIs, Housed, Below, Adjusted, AdjustedAll, AdjustedStore, Read, WriteFrame, WriteHeap, Stored,
      CanFallThrough, JumpsTo;
    assert BodyAt(x, s, store, i);
    var image := x.new_.code[s.at[i]];
    BelowSelf(x.base, f);
    match s.callee.code[i]
    case Copy(src, dst) =>
      ReadAdjusted(w, x, s, inner, f, h, src, image.source);
      CopyAdjusted(x, s, dst, image.dest);
      StoredAdjusted(w, x, s, inner, f, h, Some(dst), Some(image.dest), Read(w, s.callee, inner, h, src), i, s.at[i]);
    case Send(_, r, args, st) =>
      SendAdjusted(w, x, s, i, inner, h, f);
    case Jump(_) =>
      JumpAdjusted(x, s, i, inner, h, f);
    case JumpNotMemberOf(k, op, _) =>
      PlainLiteral(x, image.class_, s.callee.literals[k]);
      ReadAdjusted(w, x, s, inner, f, h, op, image.operand);
      JumpAdjusted(x, s, i, inner, h, f);
  }

  lemma CopyAdjusted(x: Rewrite, s: Site, op: Operand, op': Operand)
    requires Adjusted(x, s, op, op') && !op.Arg?
    ensures AdjustedStore(x, s, Some(op), Some(op'))
  {}

  lemma JumpAdjusted(x: Rewrite, s: Site, i: nat, inner: Frame, h: Heap, f: Frame)
    requires |s.at| == |s.callee.code| + 1 && i < |s.callee.code| && LandsAlike(x, s, i)
    requires Housed(x, s, inner, f)
    ensures Mirrors(x, s, JumpStep(s.callee.code, Running(i, inner, h)), JumpStep(x.new_.code, Running(s.at[i], f, h)),
      f)
  {
    hide Housed, Below;
    BelowSelf(x.base, f);
    TargetIs(x.new_.code, s.at[i], s.at[Target(s.callee.code, i).value]);
  }

  lemma SendAdjusted(w: World, x: Rewrite, s: Site, i: nat, inner: Frame, h: Heap, f: Frame)
    requires |s.at| == |s.callee.code| + 1 && i < |s.callee.code| && s.callee.code[i].Send?
    requires s.at[i] < |x.new_.code| && ImageOf(x, s, s.callee.code[i], x.new_.code[s.at[i]]) &&
      s.at[i + 1] == s.at[i] + 1
    requires Plain(x) && s.callee.slotBase == s.slotBase && x.base >= 2
    requires Housed(x, s, inner, f)
    ensures Mirrors(x, s, SendStep(w, s.callee, i, inner, h, s.callee.code[i]),
      SendStep(w, x.new_, s.at[i], f, h, x.new_.code[s.at[i]]), f)
  {
    hide Housed, Below, AdjustedAll, AdjustedStore, Read, WriteFrame, WriteHeap, Stored, ReadArgs;
    var a, b := s.callee.code[i], x.new_.code[s.at[i]];
    ReadAdjusted(w, x, s, inner, f, h, a.receiver, b.receiver);
    ArgsAdjusted(w, x, s, inner, f, h, a.args, b.args);
    match w.send(LiteralAt(s.callee, a.selector), None, Read(w, s.callee, inner, h, a.receiver),
      ReadArgs(w, s.callee, inner, h, a.args), h)
    case None =>
    case Some((v, h')) => StoredAdjusted(w, x, s, inner, f, h', a.store, b.store, v, i, s.at[i]);
  }

  // ----- leaving the body -----

  /** The callee's answer v, with its heap h, has reached the end of the body and sits in
      the send's result; caller slots are as they were in f. */
  ghost predicate Delivered(w: World, x: Rewrite, s: Site, store: Option<Operand>, v: Value, h: Heap, f: Frame, d: Conf)
    requires s.at != []
  {
    d.Running? && d.pc == BodyEnd(s, store) &&
    exists g: Frame :: Below(x.base, f, g) && d == AtBodyEnd(w, x, s, store, g, h, v)
  }

  ghost function AtBodyEnd(w: World, x: Rewrite, s: Site, store: Option<Operand>, g: Frame, h: Heap, v: Value): Conf
    requires s.at != []
  {
    match store
    case None => Running(BodyEnd(s, store), g, h)
    case Some(op) => Running(BodyEnd(s, store), WriteFrame(g, op, v), WriteHeap(w, x.new_, g, h, op, v))
  }

  /** The first n steps from c are taken before instruction end. */
  ghost predicate Stays(w: World, m: Method, c: Conf, n: nat, end: nat)
  {
    forall j: nat {:trigger Steps(w, m, c, j)} :: j < n ==> Steps(w, m, c, j).Running? && Steps(w, m, c, j).pc < end
  }

  lemma StaysNext(w: World, m: Method, c: Conf, n: nat, end: nat)
    requires c.Running? && c.pc < end && Stays(w, m, Step(w, m, c), n, end)
    ensures Stays(w, m, c, n + 1, end)
  {
    hide Step;
    forall j: nat | j < n + 1 ensures Steps(w, m, c, j).Running? && Steps(w, m, c, j).pc < end {
      if j > 0 { assert Steps(w, m, c, j) == Steps(w, m, Step(w, m, c), j - 1); }
    }
  }

  lemma {:induction false} AtBelow(x: Rewrite, s: Site, store: Option<Operand>, i: nat)
    requires Body(x, s, store) && i <= |s.callee.code|
    ensures s.at[i] <= FallEnd(s)
    decreases |s.callee.code| - i
  {
    hide CanFallThrough, ImageOf, CopiesInto, Lands, OperandEligible, SelfCopy, Exits;
    if i < |s.callee.code| {
      assert BodyAt(x, s, store, i);
      AtBelow(x, s, store, i + 1);
    }
  }

  lemma ReturnDelivers(w: World, x: Rewrite, s: Site, store: Option<Operand>, i: nat, inner: Frame, h: Heap, f: Frame)
      returns (m: nat)
    requires Plain(x) && Body(x, s, store) && i < |s.callee.code| && s.callee.code[i].Return?
    requires Housed(x, s, inner, f)
    ensures Delivered(w, x, s, store, Read(w, s.callee, inner, h, s.callee.code[i].operand), h, f,
      Steps(w, x.new_, Running(s.at[i], f, h), m))
    ensures Stays(w, x.new_, Running(s.at[i], f, h), m, BodyEnd(s, store))
  {
    AtBelow(x, s, store, i + 1);
    hide Housed, Below, Adjusted, Read, WriteFrame, WriteHeap, CanFallThrough, SelfCopy;
    assert BodyAt(x, s, store, i);
    var op := s.callee.code[i].operand;
    var v := Read(w, s.callee, inner, h, op);
    BelowSelf(x.base, f);
    var copies := Copies(store);
    var jumps := if Exits(s, store, i) then 1 else 0;
    m := copies + jumps;
    var c := Running(s.at[i], f, h);
    var d := if store.Some? then Step(w, x.new_, c) else c;
    if store.Some? { ReadAdjusted(w, x, s, inner, f, h, op, x.new_.code[s.at[i]].source); }
    assert d.Running? && d.pc == s.at[i] + copies;
    if jumps == 1 { TargetIs(x.new_.code, d.pc, BodyEnd(s, store)); }
    assert Steps(w, x.new_, c, m) == AtBodyEnd(w, x, s, store, f, h, v) by { Unroll(w, x.new_, c); }
  }

  lemma Unroll(w: World, m: Method, c: Conf)
    ensures Steps(w, m, c, 0) == c
    ensures c.Running? ==> Steps(w, m, c, 1) == Step(w, m, c)
    ensures c.Running? && Step(w, m, c).Running? ==> Steps(w, m, c, 2) == Step(w, m, Step(w, m, c))
  {
    hide Step;
    if c.Running? {
      var d := Step(w, m, c);
      assert Steps(w, m, d, 0) == d;
      if d.Running? { assert Steps(w, m, d, 1) == Steps(w, m, Step(w, m, d), 0); }
    }
  }

  lemma FallDelivers(w: World, x: Rewrite, s: Site, store: Option<Operand>, inner: Frame, h: Heap, f: Frame)
      returns (m: nat)
    requires Body(x, s, store) && CanFallThrough(s.callee.code)
    requires Housed(x, s, inner, f)
    ensures Delivered(w, x, s, store, Get(inner, SELF_INDEX), h, f, Steps(w, x.new_, Running(FallEnd(s), f, h), m))
    ensures Stays(w, x.new_, Running(FallEnd(s), f, h), m, BodyEnd(s, store))
  {
    hide Below, WriteFrame, WriteHeap, CanFallThrough, BodyAt;
    BelowSelf(x.base, f);
    m := if store.Some? then 1 else 0;
    Unroll(w, x.new_, Running(FallEnd(s), f, h));
    assert Get(inner, SELF_INDEX) == Get(f, x.base);
    assert Steps(w, x.new_, Running(FallEnd(s), f, h), m) == AtBodyEnd(w, x, s, store, f, h, Get(inner, SELF_INDEX));
  }

  /** Control reaches the callee's end only when the body says it can. */
  lemma EndReached(w: World, x: Rewrite, s: Site, store: Option<Operand>, i: nat, inner: Frame, h: Heap)
    requires Body(x, s, store) && i < |s.callee.code|
    requires Step(w, s.callee, Running(i, inner, h)).Running?
    ensures Step(w, s.callee, Running(i, inner, h)).pc == |s.callee.code| ==> CanFallThrough(s.callee.code)
  {
    hide Read, ReadArgs, WriteFrame, WriteHeap, Adjusted, AdjustedAll, AdjustedStore;
    assert BodyAt(x, s, store, i);
  }

  lemma BelowTrans(base: nat, f: Frame, g: Frame, e: Frame)
    requires Below(base, f, g) && Below(base, g, e)
    ensures Below(base, f, e)
  {
    forall i: nat | i < base ensures Get(f, i) == Get(e, i) { assert Get(f, i) == Get(g, i); }
  }

  lemma DeliveredFrom(w: World, x: Rewrite, s: Site, store: Option<Operand>, v: Value, h: Heap, f: Frame, g: Frame,
      d: Conf)
    requires s.at != [] && Below(x.base, f, g) && Delivered(w, x, s, store, v, h, g, d)
    ensures Delivered(w, x, s, store, v, h, f, d)
  {
    hide Below;
    var e: Frame :| Below(x.base, g, e) && d == AtBodyEnd(w, x, s, store, e, h, v);
    BelowTrans(x.base, f, g, e);
  }

  lemma BeforeEnd(x: Rewrite, s: Site, store: Option<Operand>, i: nat)
    requires Body(x, s, store) && i < |s.callee.code| && !s.callee.code[i].Return?
    ensures s.at[i] < BodyEnd(s, store)
  {
    AtBelow(x, s, store, i + 1);
    hide CanFallThrough, ImageOf, Lands, SelfCopy;
    assert BodyAt(x, s, store, i);
  }

  /** The callee answering from pc makes the body deliver that answer. */
  lemma {:induction false} BodyRuns(w: World, x: Rewrite, s: Site, store: Option<Operand>, c: Conf, f: Frame, n: nat)
      returns (m: nat)
    requires Plain(x) && Body(x, s, store) && c.Running? && c.pc <= |s.callee.code|
    requires c.pc == |s.callee.code| ==> CanFallThrough(s.callee.code)
    requires Housed(x, s, c.frame, f)
    requires Steps(w, s.callee, c, n).Done?
    ensures !Steps(w, s.callee, c, n).outer
    ensures Delivered(w, x, s, store, Steps(w, s.callee, c, n).value, Steps(w, s.callee, c, n).heap, f,
      Steps(w, x.new_, Running(s.at[c.pc], f, c.heap), m))
    ensures Stays(w, x.new_, Running(s.at[c.pc], f, c.heap), m, BodyEnd(s, store))
    decreases n
  {
    hide Housed, Below, Step, BodyAt, CanFallThrough, Delivered, Stays, BodyEnd;
    var Running(pc, inner, h) := c;
    var d := Step(w, s.callee, c);
    assert Steps(w, s.callee, c, n) == Steps(w, s.callee, d, n - 1);
    if pc == |s.callee.code| {
      StepEnds(w, s.callee, c);
      m := FallDelivers(w, x, s, store, inner, h, f);
    } else if s.callee.code[pc].Return? {
      StepEnds(w, s.callee, c);
      m := ReturnDelivers(w, x, s, store, pc, inner, h, f);
    } else {
      BodyStep(w, x, s, store, pc, inner, h, f);
      var e := Step(w, x.new_, Running(s.at[pc], f, h));
      EndReached(w, x, s, store, pc, inner, h);
      var k := BodyRuns(w, x, s, store, d, e.frame, n - 1);
      m := k + 1;
      BeforeEnd(x, s, store, pc);
      StaysNext(w, x.new_, Running(s.at[pc], f, h), k, BodyEnd(s, store));
      DeliveredFrom(w, x, s, store, Steps(w, s.callee, d, n - 1).value, Steps(w, s.callee, d, n - 1).heap, f, e.frame,
        Steps(w, x.new_, e, k));
    }
  }

  lemma StepEnds(w: World, m: Method, c: Conf)
    requires c.Running? && (c.pc == |m.code| || (c.pc < |m.code| && m.code[c.pc].Return?))
    ensures Step(w, m, c) == Done(if c.pc == |m.code| then Get(c.frame, SELF_INDEX)
      else Read(w, m, c.frame, c.heap, m.code[c.pc].operand), false, c.heap)
  {}

  /** If the rewritten method finishes after entering the body, the callee answers. */
  lemma {:induction false} BodyComesBack(w: World, x: Rewrite, s: Site, store: Option<Operand>, c: Conf, f: Frame,
      n: nat) returns (k: nat)
    requires Plain(x) && Body(x, s, store) && c.Running? && c.pc <= |s.callee.code|
    requires Housed(x, s, c.frame, f)
    requires Steps(w, x.new_, Running(s.at[c.pc], f, c.heap), n).Done?
    ensures Steps(w, s.callee, c, k).Done?
    decreases n
  {
    hide Housed, Below, Step, BodyAt;
    var d := Step(w, s.callee, c);
    if c.pc == |s.callee.code| || s.callee.code[c.pc].Return? {
      StepEnds(w, s.callee, c);
      k := 1;
    } else {
      BodyStep(w, x, s, store, c.pc, c.frame, c.heap, f);
      k := BodyComesBack(w, x, s, store, d, Step(w, x.new_, Running(s.at[c.pc], f, c.heap)).frame, n - 1);
      k := k + 1;
    }
  }
}
