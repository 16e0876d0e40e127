/** What liveness over paths means for runs: where a frame slot is not live its value decides
    nothing, and where no write of it leads the slot still holds what it was entered with. */
module PathMeaning {
  import opened Options
  import opened BytecodeMachine
  import opened RegisterScan
  import opened Liveness
  import opened LiveRanges
  import opened PathLiveness
  import opened LoopRanges

  ghost predicate SameBut(f: Frame, f': Frame, u: nat)
  {
    forall i: nat {:trigger Get(f, i)} {:trigger Get(f', i)} :: i != u ==> Get(f', i) == Get(f, i)
  }

  /** Configurations that differ at most in slot u, and there only if it is not live. */
  ghost predicate Agree(code: Code, u: nat, c: Conf, c': Conf)
  {
    if c.Running? then
      && c'.Running? && c'.pc == c.pc && c'.heap == c.heap && SameBut(c.frame, c'.frame, u)
      && (Live(code, u, c.pc) ==> Get(c'.frame, u) == Get(c.frame, u))
    else c' == c
  }

  lemma ReadSame(w: World, m: Method, f: Frame, f': Frame, h: Heap, op: Operand, u: nat)
    requires SELF_INDEX < u && SameBut(f, f', u) && (u in Named(op) ==> Get(f', u) == Get(f, u))
    ensures Read(w, m, f', h, op) == Read(w, m, f, h, op)
  {
  }

  /** What an instruction reads is the same on both sides. */
  lemma OperandSame(w: World, m: Method, c: Conf, c': Conf, op: Operand, u: nat)
    requires SELF_INDEX < u && c.Running? && c.pc < |m.code| && Agree(m.code, u, c, c')
    requires op in ReadOperands(m.code[c.pc])
    ensures Read(w, m, c'.frame, c.heap, op) == Read(w, m, c.frame, c.heap, op)
  {
    hide Live, SameBut;
    var ops := ReadOperands(m.code[c.pc]);
    var k :| 0 <= k < |ops| && ops[k] == op;
    if u in Named(op) {
      assert Reads(m.code[c.pc], u);
      ReadLive(m.code, u, c.pc);
    }
    ReadSame(w, m, c.frame, c'.frame, c.heap, op, u);
  }

  /** Going on to q agrees if the frames agree on the other slots and the step is one of the code's. */
  lemma OnwardAgrees(code: Code, u: nat, c: Conf, c': Conf, q: nat)
    requires c.Running? && Agree(code, u, c, c') && Next(code, c.pc, q) && !Writes(code[c.pc], u)
    ensures Agree(code, u, c.(pc := q), c'.(pc := q))
  {
    hide SameBut, Next;
    if Live(code, u, q) { LiveBefore(code, u, c.pc, q); }
  }

  /** The store of a copy or a send. */
  lemma StoreAgrees(w: World, m: Method, c: Conf, c': Conf, h: Heap, op: Operand, v: Value, u: nat)
    requires SELF_INDEX < u && c.Running? && c.pc < |m.code| && Agree(m.code, u, c, c')
    requires var i := m.code[c.pc];
      (i.Copy? && i.dest == op) || (i.Send? && i.store == Some(op))
    ensures Agree(m.code, u, Stored(w, m, c.pc, c.frame, h, Some(op), v), Stored(w, m, c.pc, c'.frame, h, Some(op), v))
  {
    hide Live, Reads, Next, SameBut;
    var i := m.code[c.pc];
    var q := c.pc + 1;
    assert WriteHeap(w, m, c'.frame, h, op, v) == WriteHeap(w, m, c.frame, h, op, v) by {
      if op.InstVarOf? { StoreReads(i, op, m.code, u, c, c'); } else { Fixed(c.frame, c'.frame, u); }
    }
    FrameSame(c.frame, c'.frame, op, v, u);
    if !Writes(i, u) {
      StepsOn(m.code, c.pc);
      OnwardAgrees(m.code, u, c, c', q);
    }
  }

  lemma Fixed(f: Frame, f': Frame, u: nat)
    requires SELF_INDEX < u && SameBut(f, f', u)
    ensures Get(f', CONTEXT_INDEX) == Get(f, CONTEXT_INDEX) && Get(f', SELF_INDEX) == Get(f, SELF_INDEX)
  {
  }

  lemma FrameSame(f: Frame, f': Frame, op: Operand, v: Value, u: nat)
    requires SameBut(f, f', u)
    ensures SameBut(WriteFrame(f, op, v), WriteFrame(f', op, v), u)
    ensures op == Temp(u) || op == Arg(u) || Get(f', u) == Get(f, u) ==>
      Get(WriteFrame(f', op, v), u) == Get(WriteFrame(f, op, v), u)
  {
    var g, g' := WriteFrame(f, op, v), WriteFrame(f', op, v);
    forall k: nat | k != u ensures Get(g', k) == Get(g, k) { assert Get(f', k) == Get(f, k); }
  }

  lemma StepsOn(code: Code, p: nat)
    requires p < |code| && (code[p].Copy? || code[p].Send?)
    ensures Next(code, p, p + 1)
  {
  }

  /** A store into an object through a temporary reads the temporary. */
  lemma StoreReads(i: Instr, op: Operand, code: Code, u: nat, c: Conf, c': Conf)
    requires c.Running? && c.pc < |code| && i == code[c.pc] && Agree(code, u, c, c') && op.InstVarOf?
    requires (i.Copy? && i.dest == op) || (i.Send? && i.store == Some(op))
    ensures Get(c'.frame, op.temp) == Get(c.frame, op.temp)
  {
    hide Live;
    if op.temp == u {
      var ops := ReadOperands(i);
      assert ops[|ops| - 1] == op && u in Named(op);
      assert Reads(i, u);
      ReadLive(code, u, c.pc);
    }
  }

  lemma CopyAgrees(w: World, m: Method, c: Conf, c': Conf, u: nat)
    requires SELF_INDEX < u && c.Running? && c.pc < |m.code| && Agree(m.code, u, c, c') && m.code[c.pc].Copy?
    ensures Agree(m.code, u, Step(w, m, c), Step(w, m, c'))
  {
    hide Agree, Read, Stored;
    var i := m.code[c.pc];
    SamePlace(m.code, u, c, c');
    assert ReadOperands(i)[0] == i.source;
    OperandSame(w, m, c, c', i.source, u);
    StoreAgrees(w, m, c, c', c.heap, i.dest, Read(w, m, c.frame, c.heap, i.source), u);
  }

  lemma SamePlace(code: Code, u: nat, c: Conf, c': Conf)
    requires Agree(code, u, c, c') && c.Running?
    ensures c'.Running? && c'.pc == c.pc && c'.heap == c.heap && SameBut(c.frame, c'.frame, u)
  {
  }

  lemma SendAgrees(w: World, m: Method, c: Conf, c': Conf, u: nat)
    requires SELF_INDEX < u && c.Running? && c.pc < |m.code| && Agree(m.code, u, c, c') && m.code[c.pc].Send?
    ensures Agree(m.code, u, Step(w, m, c), Step(w, m, c'))
  {
    hide Read, Stored, Live, SameBut;
    var i := m.code[c.pc];
    var ops := ReadOperands(i);
    assert ops[0] == i.receiver;
    OperandSame(w, m, c, c', i.receiver, u);
    forall k | 0 <= k < |i.args|
      ensures Read(w, m, c'.frame, c.heap, i.args[k]) == Read(w, m, c.frame, c.heap, i.args[k]) {
      assert ops[k + 1] == i.args[k];
      OperandSame(w, m, c, c', i.args[k], u);
    }
    assert ReadArgs(w, m, c'.frame, c.heap, i.args) == ReadArgs(w, m, c.frame, c.heap, i.args);
    var r := w.send(LiteralAt(m, i.selector), if i.receiver.Super? then Some(m.superClass) else None,
      Read(w, m, c.frame, c.heap, i.receiver), ReadArgs(w, m, c.frame, c.heap, i.args), c.heap);
    if r.Some? {
      hide ReadArgs, Agree;
      AnswerAgrees(w, m, c, c', r.value.1, r.value.0, u);
    }
  }

  lemma AnswerAgrees(w: World, m: Method, c: Conf, c': Conf, h: Heap, v: Value, u: nat)
    requires SELF_INDEX < u && c.Running? && c.pc < |m.code| && Agree(m.code, u, c, c') && m.code[c.pc].Send?
    ensures c'.Running?
    ensures Agree(m.code, u, Stored(w, m, c.pc, c.frame, h, m.code[c.pc].store, v),
      Stored(w, m, c.pc, c'.frame, h, m.code[c.pc].store, v))
  {
    hide Live, SameBut, Next, Writes;
    var i := m.code[c.pc];
    if i.store.Some? {
      StoreAgrees(w, m, c, c', h, i.store.value, v, u);
    } else {
      StepsOn(m.code, c.pc);
      assert !Writes(i, u) by { NoStore(i, u); }
      OnwardAgrees(m.code, u, c, c', c.pc + 1);
    }
  }

  lemma NoStore(i: Instr, u: nat)
    requires (i.Send? && i.store.None?) || i.Jump? || i.JumpNotMemberOf?
    ensures !Writes(i, u)
  {
  }

  lemma JumpAgrees(w: World, m: Method, c: Conf, c': Conf, u: nat)
    requires SELF_INDEX < u && c.Running? && c.pc < |m.code| && Agree(m.code, u, c, c') && IsJump(m.code[c.pc])
    ensures Agree(m.code, u, Step(w, m, c), Step(w, m, c'))
  {
    hide Agree, Read, Writes;
    var i := m.code[c.pc];
    SamePlace(m.code, u, c, c');
    NoStore(i, u);
    if i.JumpNotMemberOf? {
      assert ReadOperands(i)[0] == i.operand;
      OperandSame(w, m, c, c', i.operand, u);
      assert Next(m.code, c.pc, c.pc + 1);
      OnwardAgrees(m.code, u, c, c', c.pc + 1);
    }
    match Target(m.code, c.pc)
    case None => assert JumpStep(m.code, c) == JumpStep(m.code, c') == Stuck; StuckAgrees(m.code, u);
    case Some(t) =>
      assert Next(m.code, c.pc, t);
      OnwardAgrees(m.code, u, c, c', t);
  }

  lemma StuckAgrees(code: Code, u: nat)
    ensures Agree(code, u, Stuck, Stuck)
  {
  }

  lemma ReturnAgrees(w: World, m: Method, c: Conf, c': Conf, u: nat)
    requires SELF_INDEX < u && c.Running? && Agree(m.code, u, c, c')
    requires c.pc >= |m.code| || m.code[c.pc].Return? || m.code[c.pc].OuterReturn?
    ensures Agree(m.code, u, Step(w, m, c), Step(w, m, c'))
  {
    hide Read, Live;
    if c.pc < |m.code| {
      assert ReadOperands(m.code[c.pc])[0] == m.code[c.pc].operand;
      OperandSame(w, m, c, c', m.code[c.pc].operand, u);
    }
  }

  lemma StepAgrees(w: World, m: Method, c: Conf, c': Conf, u: nat)
    requires SELF_INDEX < u && c.Running? && Agree(m.code, u, c, c')
    ensures c'.Running? && Agree(m.code, u, Step(w, m, c), Step(w, m, c'))
  {
    hide Agree, Step;
    SamePlace(m.code, u, c, c');
    if c.pc < |m.code| && m.code[c.pc].Copy? {
      CopyAgrees(w, m, c, c', u);
    } else if c.pc < |m.code| && m.code[c.pc].Send? {
      SendAgrees(w, m, c, c', u);
    } else if c.pc < |m.code| && IsJump(m.code[c.pc]) {
      JumpAgrees(w, m, c, c', u);
    } else {
      ReturnAgrees(w, m, c, c', u);
    }
  }

  lemma {:induction false} StepsAgree(w: World, m: Method, c: Conf, c': Conf, u: nat, n: nat)
    requires SELF_INDEX < u && Agree(m.code, u, c, c')
    ensures Agree(m.code, u, Steps(w, m, c, n), Steps(w, m, c', n))
    decreases n
  {
    hide Step, Live, SameBut;
    if n > 0 && c.Running? {
      StepAgrees(w, m, c, c', u);
      StepsAgree(w, m, Step(w, m, c), Step(w, m, c'), u, n - 1);
    }
  }

  /** The value of a slot that is not live decides nothing: every answer stays. */
  lemma DeadSlot(w: World, m: Method, c: Conf, u: nat, x: Value, value: Value, outer: bool, h: Heap)
    requires SELF_INDEX < u && c.Running? && !Live(m.code, u, c.pc)
    ensures Answers(w, m, c, value, outer, h) <==> Answers(w, m, c.(frame := c.frame[u := x]), value, outer, h)
  {
    hide Live;
    var c' := c.(frame := c.frame[u := x]);
    assert Agree(m.code, u, c, c');
    forall n: nat ensures Agree(m.code, u, Steps(w, m, c, n), Steps(w, m, c', n)) { StepsAgree(w, m, c, c', u, n); }
    hide Steps;
    if n: nat :| Steps(w, m, c, n) == Done(value, outer, h) { assert Steps(w, m, c', n) == Done(value, outer, h); }
    if n: nat :| Steps(w, m, c', n) == Done(value, outer, h) { assert Steps(w, m, c, n) == Done(value, outer, h); }
  }

  // ----- what a slot holds -----

  /** Slot u holds what it was entered with, or a write of it leads here. */
  ghost predicate Accounted(code: Code, u: nat, v: Value, c: Conf)
  {
    c.Running? ==> Reachable(code, c.pc) && (Get(c.frame, u) == v || Written(code, u, c.pc))
  }

  lemma StepNext(w: World, m: Method, c: Conf, u: nat)
    requires c.Running? && Step(w, m, c).Running?
    ensures c.pc < |m.code| && Next(m.code, c.pc, Step(w, m, c).pc)
    ensures !Writes(m.code[c.pc], u) ==> Get(Step(w, m, c).frame, u) == Get(c.frame, u)
  {
    hide Read, WriteHeap, ReadArgs;
  }

  lemma StepAccounted(w: World, m: Method, c: Conf, u: nat, v: Value)
    requires c.Running? && Accounted(m.code, u, v, c)
    ensures Accounted(m.code, u, v, Step(w, m, c))
  {
    hide Step, Reachable, Written, Next, Writes;
    if Step(w, m, c).Running? {
      StepNext(w, m, c, u);
      var q := Step(w, m, c).pc;
      ReachableNext(m.code, c.pc, q);
      if Writes(m.code[c.pc], u) {
        WrittenHere(m.code, u, c.pc, q);
      } else if Written(m.code, u, c.pc) {
        WrittenAfter(m.code, u, c.pc, q);
      }
    }
  }

  lemma {:induction false} StepsAccounted(w: World, m: Method, c: Conf, u: nat, v: Value, n: nat)
    requires Accounted(m.code, u, v, c)
    ensures Accounted(m.code, u, v, Steps(w, m, c, n))
    decreases n
  {
    hide Accounted, Step;
    if n > 0 && c.Running? {
      StepAccounted(w, m, c, u, v);
      StepsAccounted(w, m, Step(w, m, c), u, v, n - 1);
    }
  }

  /** Everything that a run reaches: a temporary still holds nil, or is carried, or decides nothing. */
  lemma SlotMatters(w: World, m: Method, self: Value, args: seq<Value>, h0: Heap, n: nat, u: nat)
    requires |args| + 2 <= u
    ensures var c := Steps(w, m, Entry(w, self, args, h0), n);
      c.Running? ==> Get(c.frame, u) == NIL || Carried(m.code, u, c.pc) || !Live(m.code, u, c.pc)
  {
    var c0 := Entry(w, self, args, h0);
    assert Accounted(m.code, u, NIL, c0) by { assert Route(m.code, [0]); }
    hide Live, Written, Entry;
    StepsAccounted(w, m, c0, u, NIL, n);
  }

  /** If loops are kept, whatever the collector leaves in a slot that it does not scan: the
      temporary held nil or the answers stay the same. */
  lemma UnscannedDecidesNothing(w: World, m: Method, self: Value, args: seq<Value>, h0: Heap, n: nat, u: nat,
      range: Variable, x: Value, value: Value, outer: bool, h: Heap)
    requires |args| + 2 <= u && Exact(range, m.code, u) && LoopsKept(m.code, u)
    requires var c := Steps(w, m, Entry(w, self, args, h0), n);
      c.Running? && !(range.start <= c.pc <= range.gcEnd) && Get(c.frame, u) != NIL
    ensures var c := Steps(w, m, Entry(w, self, args, h0), n);
      Answers(w, m, c, value, outer, h) <==> Answers(w, m, c.(frame := c.frame[u := x]), value, outer, h)
  {
    hide Live, Written, Exact, LoopsKept, Answers, Steps;
    var c := Steps(w, m, Entry(w, self, args, h0), n);
    SlotMatters(w, m, self, args, h0, n, u);
    CollectorCovers(range, m.code, u);
    DeadSlot(w, m, c, u, x, value, outer, h);
  }
}
