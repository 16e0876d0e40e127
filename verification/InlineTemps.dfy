/** The inline area is shared by all sites and never set back to nil, so a callee's
    temporaries start with whatever an earlier site left there. A callee that writes each
    temporary before reading it, on every path, cannot tell. */
module InlineTemps {
  import opened Options
  import opened BytecodeMachine
  import opened InlineMeaning
  import opened InlineTheorem

  ghost predicate ReadsWritten(m: Method, written: set<nat>, op: Operand)
  {
    OperandEligible(m, op) && (op.Temp? ==> op.index in written)
  }

  ghost predicate ReadsAllWritten(m: Method, written: set<nat>, ops: seq<Operand>)
  {
    forall i {:trigger ops[i]} :: 0 <= i < |ops| ==> ReadsWritten(m, written, ops[i])
  }

  ghost predicate Destination(m: Method, op: Option<Operand>)
  {
    op.Some? ==> OperandEligible(m, op.value) && !op.value.Arg?
  }

  ghost function Writes(op: Option<Operand>): set<nat>
  {
    if op.Some? && op.value.Temp? then {op.value.index} else {}
  }

  ghost predicate ReadsOk(m: Method, written: set<nat>, i: Instr)
  {
    match i
    case Copy(s, d) => ReadsWritten(m, written, s) && Destination(m, Some(d))
    case Send(_, r, args, store) => ReadsWritten(m, written, r) && ReadsAllWritten(m, written, args) &&
      Destination(m, store)
    case Return(op) => ReadsWritten(m, written, op)
    case OuterReturn(_) => false
    case Jump(_) => true
    case JumpNotMemberOf(_, op, _) => ReadsWritten(m, written, op)
  }

  ghost function WrittenBy(i: Instr): set<nat>
  {
    match i
    case Copy(_, d) => Writes(Some(d))
    case Send(_, _, _, store) => Writes(store)
    case _ => {}
  }

  /** written[i] is a set of temporaries that every path to instruction i has written. */
  ghost predicate WritesBeforeReads(m: Method, written: seq<set<nat>>)
  {
    && |written| == |m.code| + 1 && written[0] == {}
    && forall i {:trigger m.code[i]} :: 0 <= i < |m.code| ==>
         && ReadsOk(m, written[i], m.code[i])
         && (!m.code[i].Return? && !m.code[i].Jump? ==> written[i + 1] <= written[i] + WrittenBy(m.code[i]))
         && (m.code[i].Jump? || m.code[i].JumpNotMemberOf? ==>
               Target(m.code, i).Some? ==> written[Target(m.code, i).value] <= written[i])
  }

  /** The frames agree on self, the arguments and the written temporaries. */
  ghost predicate AgreeOn(m: Method, written: set<nat>, f: Frame, g: Frame)
  {
    forall i: nat {:trigger Get(f, i)} {:trigger Get(g, i)} ::
      1 <= i < 2 + m.argsSize || i in written ==> Get(f, i) == Get(g, i)
  }

  ghost predicate InStep(m: Method, written: seq<set<nat>>, c: Conf, d: Conf)
  {
    match c
    case Running(pc, f, h) => pc < |written| && d.Running? && d.pc == pc && d.heap == h &&
      AgreeOn(m, written[pc], f, d.frame)
    case _ => d == c
  }

  lemma ReadAgrees(w: World, m: Method, written: set<nat>, f: Frame, g: Frame, h: Heap, op: Operand)
    requires AgreeOn(m, written, f, g) && ReadsWritten(m, written, op)
    ensures Read(w, m, f, h, op) == Read(w, m, g, h, op)
  {
    assert Get(f, SELF_INDEX) == Get(g, SELF_INDEX);
  }

  lemma StoredAgrees(w: World, m: Method, written: set<nat>, next: set<nat>, f: Frame, g: Frame, h: Heap,
      op: Option<Operand>, v: Value, i: nat)
    requires AgreeOn(m, written, f, g) && Destination(m, op) && next <= written + Writes(op)
    ensures Stored(w, m, i, f, h, op, v).Running? && Stored(w, m, i, g, h, op, v).Running?
    ensures Stored(w, m, i, f, h, op, v).pc == i + 1 && Stored(w, m, i, g, h, op, v).pc == i + 1
    ensures Stored(w, m, i, f, h, op, v).heap == Stored(w, m, i, g, h, op, v).heap
    ensures AgreeOn(m, next, Stored(w, m, i, f, h, op, v).frame, Stored(w, m, i, g, h, op, v).frame)
  {
    assert Get(f, SELF_INDEX) == Get(g, SELF_INDEX);
    var f', g' := Stored(w, m, i, f, h, op, v).frame, Stored(w, m, i, g, h, op, v).frame;
    forall k: nat | 1 <= k < 2 + m.argsSize || k in next ensures Get(f', k) == Get(g', k) {
      assert k in next ==> k in written || k in Writes(op);
      assert 1 <= k < 2 + m.argsSize || k in written ==> Get(f, k) == Get(g, k);
    }
  }

  lemma ArgsAgree(w: World, m: Method, written: set<nat>, f: Frame, g: Frame, h: Heap, ops: seq<Operand>)
    requires AgreeOn(m, written, f, g) && ReadsAllWritten(m, written, ops)
    ensures ReadArgs(w, m, f, h, ops) == ReadArgs(w, m, g, h, ops)
  {
    hide AgreeOn, ReadsWritten, Read;
    var a, b := ReadArgs(w, m, f, h, ops), ReadArgs(w, m, g, h, ops);
    forall i | 0 <= i < |ops| ensures a[i] == b[i] { ReadAgrees(w, m, written, f, g, h, ops[|ops| - 1 - i]); }
  }

  lemma FewerAgree(m: Method, s: set<nat>, t: set<nat>, f: Frame, g: Frame)
    requires AgreeOn(m, s, f, g) && t <= s
    ensures AgreeOn(m, t, f, g)
  {}

  lemma StepAgrees(w: World, m: Method, written: seq<set<nat>>, c: Conf, d: Conf)
    requires WritesBeforeReads(m, written) && c.Running? && InStep(m, written, c, d)
    ensures InStep(m, written, Step(w, m, c), Step(w, m, d))
  {
    var Running(i, f, h) := c;
    var g := d.frame;
    hide AgreeOn, ReadsWritten, ReadsAllWritten, Destination, Writes, Read, ReadArgs, Stored, JumpsTo;
    if i == |m.code| {
      SelfAgrees(m, written[i], f, g);
    } else {
      assert ReadsOk(m, written[i], m.code[i]);
      match m.code[i]
      case Copy(s, op) =>
        ReadAgrees(w, m, written[i], f, g, h, s);
        StoredAgrees(w, m, written[i], written[i + 1], f, g, h, Some(op), Read(w, m, f, h, s), i);
      case Send(sel, r, args, store) =>
        ReadAgrees(w, m, written[i], f, g, h, r);
        ArgsAgree(w, m, written[i], f, g, h, args);
        match w.send(LiteralAt(m, sel), if r.Super? then Some(m.superClass)
          else None, Read(w, m, f, h, r), ReadArgs(w, m, f, h, args), h) {
          case None =>
          case Some((v, h')) => StoredAgrees(w, m, written[i], written[i + 1], f, g, h', store, v, i);
        }
      case Return(op) => ReadAgrees(w, m, written[i], f, g, h, op);
      case Jump(_) => JumpAgrees(m, written, i, f, g);
      case JumpNotMemberOf(_, op, _) =>
        ReadAgrees(w, m, written[i], f, g, h, op);
        JumpAgrees(m, written, i, f, g);
        FewerAgree(m, written[i], written[i + 1], f, g);
    }
  }

  lemma SelfAgrees(m: Method, s: set<nat>, f: Frame, g: Frame)
    requires AgreeOn(m, s, f, g)
    ensures Get(f, SELF_INDEX) == Get(g, SELF_INDEX)
  {}

  lemma JumpAgrees(m: Method, written: seq<set<nat>>, i: nat, f: Frame, g: Frame)
    requires WritesBeforeReads(m, written) && i < |m.code| && (m.code[i].Jump? || m.code[i].JumpNotMemberOf?)
    requires AgreeOn(m, written[i], f, g)
    ensures Target(m.code, i).Some? ==> AgreeOn(m, written[Target(m.code, i).value], f, g)
  {
    hide AgreeOn, ReadsOk;
    assert ReadsOk(m, written[i], m.code[i]);
    if Target(m.code, i).Some? { FewerAgree(m, written[i], written[Target(m.code, i).value], f, g); }
  }

  lemma {:induction false} RunAgrees(w: World, m: Method, written: seq<set<nat>>, c: Conf, d: Conf, n: nat)
    requires WritesBeforeReads(m, written) && InStep(m, written, c, d)
    ensures InStep(m, written, Steps(w, m, c, n), Steps(w, m, d, n))
    decreases n
  {
    hide Step, AgreeOn, WritesBeforeReads;
    if n > 0 && c.Running? {
      StepAgrees(w, m, written, c, d);
      RunAgrees(w, m, written, Step(w, m, c), Step(w, m, d), n - 1);
    }
  }

  /** Writing each temporary before reading it is enough for the inlined copy to be the callee. */
  lemma WrittenFirstIgnoresEntry(w: World, class_: Value, m: Method, written: seq<set<nat>>)
    requires WritesBeforeReads(m, written)
    ensures IgnoresEntryTemps(w, class_, m)
  {
    hide Steps, ReadsOk;
    forall f: Frame, g: Frame, h: Heap, v: Value, h': Heap | SameInputs(m, f, g)
      ensures Answers(w, m, Running(0, f, h), v, false, h') <==> Answers(w, m, Running(0, g, h), v, false, h')
    {
      OneWay(w, m, written, f, g, h, v, h');
      OneWay(w, m, written, g, f, h, v, h');
    }
  }

  lemma OneWay(w: World, m: Method, written: seq<set<nat>>, f: Frame, g: Frame, h: Heap, v: Value, h': Heap)
    requires WritesBeforeReads(m, written) && SameInputs(m, f, g)
    ensures Answers(w, m, Running(0, f, h), v, false, h') ==> Answers(w, m, Running(0, g, h), v, false, h')
  {
    hide Steps, ReadsOk;
    if Answers(w, m, Running(0, f, h), v, false, h') {
      var n: nat :| Steps(w, m, Running(0, f, h), n) == Done(v, false, h');
      RunAgrees(w, m, written, Running(0, f, h), Running(0, g, h), n);
    }
  }

  // ----- a callee that can tell -----

  /** The body, entered with frame g, comes to its end, for the first time, with this answer. */
  ghost predicate Arrives(w: World, x: Rewrite, s: Site, store: Option<Operand>, g: Frame, h: Heap, v: Value, h': Heap)
    requires s.at != []
  {
    exists n: nat {:trigger Steps(w, x.new_, Running(s.at[0], g, h), n)} ::
      && Delivered(w, x, s, store, v, h', g, Steps(w, x.new_, Running(s.at[0], g, h), n))
      && Stays(w, x.new_, Running(s.at[0], g, h), n, BodyEnd(s, store))
  }

  ghost predicate ComesBack(w: World, m: Method, c: Conf)
  {
    exists n: nat :: Steps(w, m, c, n).Done?
  }

  /** The call and the body, entered with frame g, part: they answer differently, or one of them
      never comes back. */
  ghost predicate Parts(w: World, x: Rewrite, s: Site, store: Option<Operand>, call: Conf, g: Frame, h: Heap)
    requires s.at != []
  {
    || (exists v: Value, h': Heap, u: Value, g': Heap ::
          (v, h') != (u, g') && Answers(w, s.callee, call, v, false, h') && Arrives(w, x, s, store, g, h, u, g'))
    || (ComesBack(w, s.callee, call) && !ComesBack(w, x.new_, Running(s.at[0], g, h)))
    || (!ComesBack(w, s.callee, call) && exists u: Value, g': Heap :: Arrives(w, x, s, store, g, h, u, g'))
  }

  /** The inline area of g holds self and the arguments. */
  ghost predicate Holds(x: Rewrite, g: Frame, self: Value, args: seq<Value>)
  {
    Get(g, x.base) == self && forall i: nat {:trigger args[i]} :: i < |args| ==> Get(g, x.base + 1 + i) == args[i]
  }

  ghost function ArgsOf(m: Method, f: Frame): (args: seq<Value>)
    ensures |args| == m.argsSize && forall i {:trigger args[i]} :: 0 <= i < m.argsSize ==> args[i] == Get(f, 2 + i)
  {
    seq(m.argsSize, i requires 0 <= i => Get(f, 2 + i))
  }

  /** A frame whose inline area holds the callee frame f. */
  ghost function House(x: Rewrite, s: Site, f: Frame): (g: Frame)
  {
    Slots(seq(x.base + 1 + s.callee.argsSize + s.callee.tempsSize, j requires 0 <= j => if j < x.base then NIL
      else Get(f, j - x.base + 1)))
  }

  lemma HouseAt(x: Rewrite, s: Site, f: Frame, i: nat)
    requires 1 <= i < 2 + s.callee.argsSize + s.callee.tempsSize
    ensures Get(House(x, s, f), x.base + i - 1) == Get(f, i)
  {}

  lemma HouseIsHoused(x: Rewrite, s: Site, f: Frame)
    requires x.base >= 2
    ensures Housed(x, s, f, House(x, s, f))
  {
    hide House;
    forall i: nat | 1 <= i < 2 + s.callee.argsSize + s.callee.tempsSize
      ensures Get(f, i) == Get(House(x, s, f), x.base + i - 1) {
      HouseAt(x, s, f, i);
    }
  }

  lemma HouseHolds(w: World, x: Rewrite, s: Site, f: Frame, h: Heap)
    requires x.base >= 2
    ensures Housed(x, s, f, House(x, s, f)) && Holds(x, House(x, s, f), Get(f, SELF_INDEX), ArgsOf(s.callee, f))
    ensures SameInputs(s.callee, f, Entry(w, Get(f, SELF_INDEX), ArgsOf(s.callee, f), h).frame)
  {
    hide House, Housed, SameInputs, Get;
    HouseIsHoused(x, s, f);
    HouseAt(x, s, f, 1);
    forall i: nat | i < s.callee.argsSize
      ensures Get(House(x, s, f), x.base + 1 + i) == ArgsOf(s.callee, f)[i] { HouseAt(x, s, f, 2 + i); }
    EntryInputs(w, s.callee, f, h);
  }

  lemma EntryInputs(w: World, m: Method, f: Frame, h: Heap)
    ensures SameInputs(m, f, Entry(w, Get(f, SELF_INDEX), ArgsOf(m, f), h).frame)
  {
    var e := Entry(w, Get(f, SELF_INDEX), ArgsOf(m, f), h).frame;
    forall i: nat | 1 <= i < 2 + m.argsSize ensures Get(f, i) == Get(e, i) {
      if i > 1 { assert Get(e, i) == ArgsOf(m, f)[i - 2]; }
    }
  }

  /** What the callee's code answers from f, the body delivers. */
  lemma BodyArrives(w: World, x: Rewrite, s: Site, store: Option<Operand>, f: Frame, h: Heap, n: nat)
    requires Plain(x) && Body(x, s, store) && Steps(w, s.callee, Running(0, f, h), n).Done?
    ensures var r := Steps(w, s.callee, Running(0, f, h), n);
      !r.outer && Arrives(w, x, s, store, House(x, s, f), h, r.value, r.heap)
  {
    HouseHolds(w, x, s, f, h);
    hide Steps, Housed, Delivered, BodyAt, CanFallThrough, Stays;
    var m := BodyRuns(w, x, s, store, Running(0, f, h), House(x, s, f), n);
  }

  lemma BodyStays(w: World, x: Rewrite, s: Site, store: Option<Operand>, f: Frame, h: Heap)
    requires Plain(x) && Body(x, s, store) && ComesBack(w, x.new_, Running(s.at[0], House(x, s, f), h))
    ensures ComesBack(w, s.callee, Running(0, f, h))
  {
    HouseHolds(w, x, s, f, h);
    hide Steps, Housed, BodyAt, CanFallThrough;
    var n: nat :| Steps(w, x.new_, Running(s.at[0], House(x, s, f), h), n).Done?;
    var k := BodyComesBack(w, x, s, store, Running(0, f, h), House(x, s, f), n);
  }

  /** The call answers (v, h') and the callee's code, from f, does not. */
  lemma CallOnly(w: World, x: Rewrite, s: Site, store: Option<Operand>, call: Conf, f: Frame, h: Heap, v: Value,
      h': Heap)
    requires Plain(x) && Body(x, s, store) && Answers(w, s.callee, call, v, false, h') &&
      !Answers(w, s.callee, Running(0, f, h), v, false, h')
    ensures Parts(w, x, s, store, call, House(x, s, f), h)
  {
    BodyEntered(x, s, store);
    hide Steps, Body, Arrives, Plain;
    var k: nat :| Steps(w, s.callee, call, k) == Done(v, false, h');
    if ComesBack(w, x.new_, Running(s.at[0], House(x, s, f), h)) {
      BodyStays(w, x, s, store, f, h);
      var n: nat :| Steps(w, s.callee, Running(0, f, h), n).Done?;
      BodyArrives(w, x, s, store, f, h, n);
    }
  }

  /** The callee's code answers (v, h') from f and the call does not. */
  lemma BodyOnly(w: World, x: Rewrite, s: Site, store: Option<Operand>, self: Value, args: seq<Value>, f: Frame,
      h: Heap, v: Value, h': Heap)
    requires Plain(x) && Body(x, s, store)
    requires Answers(w, s.callee, Running(0, f, h), v, false, h') &&
      !Answers(w, s.callee, Entry(w, self, args, h), v, false, h')
    ensures Parts(w, x, s, store, Entry(w, self, args, h), House(x, s, f), h)
  {
    BodyEntered(x, s, store);
    hide Steps, Body, Arrives, Plain;
    var call := Entry(w, self, args, h);
    var n: nat :| Steps(w, s.callee, Running(0, f, h), n) == Done(v, false, h');
    BodyArrives(w, x, s, store, f, h, n);
    if ComesBack(w, s.callee, call) {
      var k: nat :| Steps(w, s.callee, call, k).Done?;
      var r := Steps(w, s.callee, call, k);
      BodyArrives(w, x, s, store, call.frame, h, k);
      assert Answers(w, s.callee, call, r.value, false, r.heap);
    }
  }

  /** The converse: for a callee that can tell, some receiver of the guarded class, arguments,
      frame and heap make the call and the inlined body part. */
  lemma StaleTemporariesTell(w: World, x: Rewrite, s: Site, store: Option<Operand>)
    requires Plain(x) && Body(x, s, store) && store.Some? && !IgnoresEntryTemps(w, s.class_, s.callee)
    ensures exists self: Value, args: seq<Value>, g: Frame, h: Heap ::
      && |args| == s.callee.argsSize && w.classOf(h, self) == s.class_ && Holds(x, g, self, args)
      && Parts(w, x, s, store, Entry(w, self, args, h), g, h)
  {
    hide Answers, Parts, Body, Plain;
    var f: Frame, g: Frame, h: Heap, v: Value, h': Heap :|
      && SameInputs(s.callee, f, g) && w.classOf(h, Get(f, SELF_INDEX)) == s.class_
      && !(Answers(w, s.callee, Running(0, f, h), v, false, h') <==>
        Answers(w, s.callee, Running(0, g, h), v, false, h'));
    if Answers(w, s.callee, Running(0, f, h), v, false, h') {
      TellApart(w, x, s, store, f, g, h, v, h');
    } else {
      assert Get(f, SELF_INDEX) == Get(g, SELF_INDEX);
      TellApart(w, x, s, store, g, f, h, v, h');
    }
  }

  lemma TellApart(w: World, x: Rewrite, s: Site, store: Option<Operand>, f: Frame, g: Frame, h: Heap, v: Value,
      h': Heap)
    requires Plain(x) && Body(x, s, store)
    requires SameInputs(s.callee, f, g) && w.classOf(h, Get(f, SELF_INDEX)) == s.class_
    requires Answers(w, s.callee, Running(0, f, h), v, false, h') &&
      !Answers(w, s.callee, Running(0, g, h), v, false, h')
    ensures exists self: Value, args: seq<Value>, g: Frame, h: Heap ::
      && |args| == s.callee.argsSize && w.classOf(h, self) == s.class_ && Holds(x, g, self, args)
      && Parts(w, x, s, store, Entry(w, self, args, h), g, h)
  {
    assert Get(f, SELF_INDEX) == Get(g, SELF_INDEX);
    var self, args := Get(f, SELF_INDEX), ArgsOf(s.callee, f);
    assert ArgsOf(s.callee, g) == args;
    HouseHolds(w, x, s, f, h);
    HouseHolds(w, x, s, g, h);
    hide Answers, Parts, Body, Plain, House, Holds;
    if Answers(w, s.callee, Entry(w, self, args, h), v, false, h') {
      CallOnly(w, x, s, store, Entry(w, self, args, h), g, h, v, h');
    } else {
      BodyOnly(w, x, s, store, self, args, f, h, v, h');
    }
  }
}
