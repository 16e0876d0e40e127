/** computeRegsAlloc (vm/jit/RegisterAllocator.c): live ranges from the bytecodes, backward jumps
    widening the collector's bound, the linear scan, and the frame a spill needs. */
module RegisterAllocator {
  import opened BytecodeMachine
  import opened RegisterScan
  import opened Liveness
  import opened LiveRanges

  // ----- what an instruction uses -----

  datatype Use = Use(op: Operand, off: nat)

  ghost function UsesAt(ops: seq<Operand>, off: nat): (r: seq<Use>)
    ensures |r| == |ops| && forall i {:trigger r[i]} :: 0 <= i < |ops| ==> r[i] == Use(ops[i], off)
  {
    seq(|ops|, i requires 0 <= i < |ops| => Use(ops[i], off))
  }

  /** Instruction n's operands with the bytecode numbers they are used at: a send's result is
      stored after the send. */
  ghost function Uses(i: Instr, n: nat): seq<Use>
  {
    UsesAt(Operands(i), n) + UsesAt(StoreOf(i), n + 1)
  }

  /** Sends and non-local returns, and operands in contexts. */
  ghost predicate NeedsFrame(i: Instr)
  {
    i.Send? || i.OuterReturn? || exists k {:trigger Operands(i)[k]} ::
      0 <= k < |Operands(i)| && OperandNeedsFrame(Operands(i)[k])
  }

  ghost predicate UsesOk(uses: seq<Use>, s: Shape)
  {
    forall k {:trigger uses[k]} :: 0 <= k < |uses| ==> OperandOk(uses[k].op, s)
  }

  /** Operands within the method's variables, backward jumps onto instructions. */
  ghost predicate CodeOk(code: Code, s: Shape)
  {
    && (forall i {:trigger code[i]} :: 0 <= i < |code| ==> UsesOk(Uses(code[i], i), s))
    && (forall j {:trigger code[j]} :: 0 <= j < |code| && IsJump(code[j]) && code[j].disp < 0 ==> Target(code, j).Some?)
  }

  ghost predicate AllCovered(v: View, uses: seq<Use>)
  {
    forall k {:trigger uses[k]} :: 0 <= k < |uses| ==> UseCovered(v, uses[k].op, uses[k].off)
  }

  ghost predicate CodeCovered(v: View, code: Code, n: nat)
    requires n <= |code|
  {
    forall i {:trigger code[i]} :: 0 <= i < n ==> AllCovered(v, Uses(code[i], i))
  }

  /** A variable whose range reaches the loop from t to j is kept by the collector up to j. */
  ghost predicate EdgeOk(v: View, t: nat, j: nat)
  {
    forall i {:trigger v.order[i]} ::
      0 <= i < |v.order| && v.order[i] < |v.vars| && v.vars[v.order[i]].start <= j && v.vars[v.order[i]].end >= t ==>
      v.vars[v.order[i]].gcEnd >= j
  }

  ghost predicate EdgesOk(v: View, code: Code, n: nat)
    requires n <= |code|
  {
    forall j, t {:trigger Backward(code, j, t)} :: 0 <= j < n && Backward(code, j, t) ==> EdgeOk(v, t, j)
  }

  lemma EdgeKept(v: View, v': View, now: nat, off: nat, t: nat, j: nat)
    requires OrderIs(v, now) && Advance(v, v', off) && j < off && EdgeOk(v, t, j)
    ensures EdgeOk(v', t, j)
  {
    hide Sorted, Distinct;
    forall i | 0 <= i < |v'.order| && v'.order[i] < |v'.vars| && v'.vars[v'.order[i]].start <= j &&
      v'.vars[v'.order[i]].end >= t ensures v'.vars[v'.order[i]].gcEnd >= j {
      if i < |v.order| { assert v'.order[i] == v.order[i] && Moved(v.vars[v.order[i]], v'.vars[v.order[i]], off); }
    }
  }

  lemma CoveredKept(v: View, v': View, now: nat, off: nat, uses: seq<Use>)
    requires OrderIs(v, now) && OrderIs(v', off) && now <= off && Advance(v, v', off) && AllCovered(v, uses) &&
      forall k {:trigger uses[k]} :: 0 <= k < |uses| ==> uses[k].off <= off
    ensures AllCovered(v', uses)
  {
    hide OrderIs, Advance, UseCovered;
    forall k | 0 <= k < |uses| ensures UseCovered(v', uses[k].op, uses[k].off)
      { UseStaysCovered(v, v', now, uses[k].op, uses[k].off, off); }
  }

  lemma UsesEarly(i: Instr, n: nat)
    ensures forall k {:trigger Uses(i, n)[k]} :: 0 <= k < |Uses(i, n)| ==> Uses(i, n)[k].off <= n + 1
  {
  }

  /** What was established about the first n instructions survives uses at n or later. */
  lemma ScanKept(v: View, v': View, now: nat, off: nat, code: Code, n: nat)
    requires OrderIs(v, now) && OrderIs(v', off) && now <= off && n <= off && Advance(v, v', off) && n <= |code| &&
      CodeCovered(v, code, n) && EdgesOk(v, code, n)
    ensures CodeCovered(v', code, n) && EdgesOk(v', code, n)
  {
    hide OrderIs, Advance, AllCovered, EdgeOk, Uses, Backward;
    forall i | 0 <= i < n ensures AllCovered(v', Uses(code[i], i)) {
      UsesEarly(code[i], i);
      CoveredKept(v, v', now, off, Uses(code[i], i));
    }
    forall j, t | 0 <= j < n && Backward(code, j, t) ensures EdgeOk(v', t, j) { EdgeKept(v, v', now, off, t, j); }
  }

  // ----- backward jumps -----

  ghost predicate Extended(v: View, v': View, t: nat, j: nat)
  {
    && v' == v.(vars := v'.vars) && |v'.vars| == |v.vars|
    && forall u {:trigger v'.vars[u]} {:trigger v.vars[u]} ::
      0 <= u < |v.vars| ==> v'.vars[u] == if u in v.order then Widened(v.vars[u], t, j) else v.vars[u]
  }

  lemma ExtendedOrder(v: View, v': View, now: nat, t: nat, j: nat)
    requires OrderIs(v, now) && Extended(v, v', t, j)
    ensures OrderIs(v', now)
  {
    assert Sorted(v'.vars, v'.order) by {
      forall i, k | 0 <= i < k < |v.order| && v.order[i] < |v.vars| && v.order[k] < |v.vars|
        ensures v'.vars[v.order[i]].start <= v'.vars[v.order[k]].start {
        assert v.vars[v.order[i]].start <= v.vars[v.order[k]].start;
      }
    }
    hide Sorted, Distinct;
    forall i | 0 <= i < |v'.order|
      ensures v'.order[i] < |v'.vars| && v'.order[i] < v'.varsSize && RangeOk(v'.vars[v'.order[i]], now)
      { assert RangeOk(v.vars[v.order[i]], now); }
    forall u | 0 <= u < |v'.vars| && v'.vars[u].defined ensures u in v'.order { var _ := v.vars[u]; }
  }

  lemma ExtendedAdvance(v: View, v': View, t: nat, j: nat, off: nat)
    requires Extended(v, v', t, j)
    ensures Advance(v, v', off) && EdgeOk(v', t, j)
  {
    forall i | 0 <= i < |v.order| && v.order[i] < |v.vars|
      ensures v'.vars[v.order[i]] == Widened(v.vars[v.order[i]], t, j) {}
  }

  lemma ExtendedOk(v: View, v': View, s: Shape, now: nat, t: nat, j: nat, off: nat)
    requires Ok(v, s, now) && Extended(v, v', t, j)
    ensures Ok(v', s, now) && Advance(v, v', off) && EdgeOk(v', t, j)
  {
    hide OrderIs, SpecialsOk, Advance, EdgeOk;
    ExtendedOrder(v, v', now, t, j);
    SpecialsSame(v, v', s);
    ExtendedAdvance(v, v', t, j, off);
  }

  /** extendLoopVarRanges. */
  method ExtendLoopVarRanges(a: Vars, target: nat, jump: nat)
    requires forall i {:trigger a.order[i]} :: 0 <= i < |a.order| ==> a.order[i] < a.vars.Length
    requires Distinct(a.order)
    modifies a.vars
    ensures Extended(old(a.Now()), a.Now(), target, jump)
  {
    ghost var before := a.vars[..];
    for i := 0 to |a.order|
      invariant forall u {:trigger a.vars[u]} {:trigger before[u]} ::
        0 <= u < a.vars.Length ==> a.vars[u] == if u in a.order[..i] then Widened(before[u], target, jump)
        else before[u]
    {
      var u := a.order[i];
      assert u !in a.order[..i];
      assert a.order[..i + 1] == a.order[..i] + [u];
      var x := a.vars[u];
      if x.start <= jump && x.end >= target && x.gcEnd < jump {
        a.vars[u] := x.(gcEnd := jump);
      }
    }
    assert a.order[..|a.order|] == a.order;
  }

  // ----- instructions -----

  lemma CoveredMore(v: View, v': View, s: Shape, now: nat, off: nat, uses: seq<Use>, u: Use)
    requires Ok(v, s, now) && Ok(v', s, off) && now <= off && Advance(v, v', off) && AllCovered(v, uses) &&
      UseCovered(v', u.op, u.off)
    requires forall k {:trigger uses[k]} :: 0 <= k < |uses| ==> uses[k].off <= off
    ensures AllCovered(v', uses + [u])
  {
    hide OrderIs, SpecialsOk, Advance, UseCovered;
    CoveredKept(v, v', now, off, uses);
  }

  /** A run of operands used at off. */
  method ExamineAll(a: Vars, ops: seq<Operand>, off: nat, ghost now: nat)
    requires Ok(a.Now(), a.shape, now) && now <= off && forall i {:trigger ops[i]} ::
      0 <= i < |ops| ==> OperandOk(ops[i], a.shape)
    modifies a, a.vars
    ensures Ok(a.Now(), a.shape, off) && Advance(old(a.Now()), a.Now(), off) && AllCovered(a.Now(), UsesAt(ops, off))
    ensures a.frameLess == (old(a.frameLess) && forall i {:trigger ops[i]} ::
      0 <= i < |ops| ==> !OperandNeedsFrame(ops[i]))
    ensures TempsTouched(old(a.Now()), a.Now(), a.shape, NamedAll(ops), off)
  {
    hide Ok, Advance, AllCovered, UseCovered, OperandOk, OperandNeedsFrame, TempsTouched, NamedAll;
    ghost var v := a.Now();
    Unmoved(v, a.shape, now, off);
    NoUses(v, off);
    NoneNamed();
    NothingTouched(v, a.shape, off);
    for i := 0 to |ops|
      invariant Ok(a.Now(), a.shape, off) && Advance(v, a.Now(), off) && AllCovered(a.Now(), UsesAt(ops[..i], off))
      invariant a.frameLess == (old(a.frameLess) && forall k {:trigger ops[k]} ::
        0 <= k < i ==> !OperandNeedsFrame(ops[k]))
      invariant TempsTouched(v, a.Now(), a.shape, NamedAll(ops[..i]), off)
    {
      hide Ok, Advance, AllCovered, UseCovered, OperandOk, OperandNeedsFrame, TempsTouched, NamedAll, Named;
      ghost var w := a.Now();
      a.ExamineOperand(ops[i], off, off);
      CoveredMore(w, a.Now(), a.shape, off, off, UsesAt(ops[..i], off), Use(ops[i], off));
      AdvanceTrans(v, w, a.Now(), off);
      TouchedThen(v, w, a.Now(), a.shape, NamedAll(ops[..i]), Named(ops[i]), off);
      MoreNamed(ops, i);
      assert UsesAt(ops[..i + 1], off) == UsesAt(ops[..i], off) + [Use(ops[i], off)];
    }
    assert ops[..|ops|] == ops;
  }

  lemma NoneNamed()
    ensures NamedAll([]) == {}
  {
  }

  lemma MoreNamed(ops: seq<Operand>, i: nat)
    requires i < |ops|
    ensures NamedAll(ops[..i + 1]) == NamedAll(ops[..i]) + Named(ops[i])
  {
    assert ops[..i + 1][i] == ops[i];
    forall k | 0 <= k < i ensures ops[..i + 1][k] == ops[..i][k] {}
  }

  lemma NoUses(v: View, off: nat)
    ensures AllCovered(v, UsesAt([], off))
  {
  }

  lemma Widens(v: View, s: Shape, now: nat)
    requires Ok(v, s, now)
    ensures Distinct(v.order) && forall i {:trigger v.order[i]} :: 0 <= i < |v.order| ==> v.order[i] < |v.vars|
  {
    hide Distinct;
  }

  /** One instruction is done when its own uses and its own jump are. */
  lemma OneMore(v: View, code: Code, n: nat)
    requires n < |code| && CodeCovered(v, code, n) && EdgesOk(v, code, n) && AllCovered(v, Uses(code[n], n)) &&
      forall t {:trigger Backward(code, n, t)} :: Backward(code, n, t) ==> EdgeOk(v, t, n)
    ensures CodeCovered(v, code, n + 1) && EdgesOk(v, code, n + 1)
  {
    hide AllCovered, EdgeOk, Uses, Backward;
  }

  ghost predicate SelfOk(v: View)
  {
    SELF_INDEX < |v.vars| && SELF_INDEX in v.order && v.vars[SELF_INDEX].start == 0
  }

  lemma SelfKept(v: View, v': View, now: nat, off: nat)
    requires SelfOk(v) && OrderIs(v, now) && Advance(v, v', off)
    ensures SelfOk(v')
  {
    hide Sorted, Distinct;
    var k :| 0 <= k < |v.order| && v.order[k] == SELF_INDEX;
    assert v'.order[k] == SELF_INDEX;
  }

  /** Everything known after the first n instructions. */
  ghost predicate Done(v: View, s: Shape, code: Code, n: nat, now: nat)
  {
    Ok(v, s, now) && SelfOk(v) && n <= |code| && CodeCovered(v, code, n) && EdgesOk(v, code, n)
  }

  lemma DoneKept(v: View, v': View, s: Shape, code: Code, n: nat, now: nat, off: nat)
    requires Done(v, s, code, n, now) && Ok(v', s, off) && now <= off && n <= off && Advance(v, v', off)
    ensures Done(v', s, code, n, off)
  {
    hide OrderIs, SpecialsOk, Advance, SelfOk, CodeCovered, EdgesOk;
    ScanKept(v, v', now, off, code, n);
    SelfKept(v, v', now, off);
  }

  lemma OperandsOk(code: Code, s: Shape, n: nat)
    requires CodeOk(code, s) && n < |code|
    ensures forall i {:trigger Operands(code[n])[i]} ::
      0 <= i < |Operands(code[n])| ==> OperandOk(Operands(code[n])[i], s)
    ensures StoreOf(code[n]) != [] ==> OperandOk(StoreOf(code[n])[0], s)
  {
    hide OperandOk;
    var i := code[n];
    var uses := Uses(i, n);
    assert UsesOk(uses, s);
    forall k | 0 <= k < |Operands(i)| ensures OperandOk(Operands(i)[k], s) { assert uses[k] == Use(Operands(i)[k], n); }
    if StoreOf(i) != [] { assert uses[|Operands(i)|] == Use(StoreOf(i)[0], n + 1); }
  }

  /** The table from byte offsets to bytecode numbers, filled for the first n instructions. */
  ghost predicate NumbersOk(bn: seq<nat>, code: Code, n: nat)
  {
    n <= |code| && |bn| == Offset(code, |code|) + 1 && forall t {:trigger Offset(code, t)} ::
      0 <= t < n ==> 0 <= Offset(code, t) < |bn| && bn[Offset(code, t)] == t
  }

  lemma JumpTarget(bn: seq<nat>, code: Code, s: Shape, n: nat)
    requires n < |code| && NumbersOk(bn, code, n + 1) && CodeOk(code, s) && IsJump(code[n]) && code[n].disp < 0
    ensures 0 <= Offset(code, n + 1) + code[n].disp < |bn|
    ensures forall t {:trigger Backward(code, n, t)} ::
      Backward(code, n, t) <==> t == bn[Offset(code, n + 1) + code[n].disp]
  {
    var t := Target(code, n).value;
    assert JumpsTo(code, n, t);
    if t > n && n + 1 < t { OffsetMono(code, n + 1, t); }
    assert t <= n;
    forall t' | Backward(code, n, t') ensures t' == t { TargetIs(code, n, t'); }
  }

  /** The operands an instruction reads, and the frame it needs. */
  method ScanOperands(a: Vars, code: Code, n: nat)
    requires CodeOk(code, a.shape) && n < |code| && Done(a.Now(), a.shape, code, n, n)
    modifies a, a.vars
    ensures Done(a.Now(), a.shape, code, n, n) && AllCovered(a.Now(), UsesAt(Operands(code[n]), n)) &&
      a.frameLess == (old(a.frameLess) && !NeedsFrame(code[n]))
    ensures TempsTouched(old(a.Now()), a.Now(), a.shape, NamedAll(Operands(code[n])), n)
  {
    hide CodeOk, Done, Ok, Advance, AllCovered, UsesAt, OperandOk, TempsTouched, NamedAll;
    var i := code[n];
    ghost var v := a.Now();
    OperandsOk(code, a.shape, n);
    StartOf(v, a.shape, code, n, n);
    if i.Send? || i.OuterReturn? { a.frameLess := false; }
    ExamineAll(a, Operands(i), n, n);
    DoneKept(v, a.Now(), a.shape, code, n, n, n);
  }

  /** A backward jump. */
  method ScanJump(a: Vars, code: Code, n: nat, bn: array<nat>, end: nat)
    requires CodeOk(code, a.shape) && n < |code| && Done(a.Now(), a.shape, code, n, n) &&
      NumbersOk(bn[..], code, n + 1) && end == Offset(code, n + 1)
    requires AllCovered(a.Now(), UsesAt(Operands(code[n]), n))
    modifies a.vars
    ensures Done(a.Now(), a.shape, code, n, n) && AllCovered(a.Now(), UsesAt(Operands(code[n]), n))
    ensures forall t {:trigger Backward(code, n, t)} :: Backward(code, n, t) ==> EdgeOk(a.Now(), t, n)
    ensures TempsWidened(old(a.Now()), a.Now(), a.shape, code, n)
  {
    hide CodeOk, Done, NumbersOk, Ok, Advance, AllCovered, UsesAt, EdgeOk, Extended, TempsWidened;
    var i := code[n];
    NothingWidened(a.Now(), a.shape, code, n);
    if IsJump(i) && i.disp < 0 {
      hide CodeOk, Done, NumbersOk, Ok, Advance, AllCovered, UsesAt, EdgeOk, Backward, Extended, TempsWidened;
      ghost var v := a.Now();
      JumpTarget(bn[..], code, a.shape, n);
      StartOf(v, a.shape, code, n, n);
      Widens(v, a.shape, n);
      var t := bn[end + i.disp];
      ExtendLoopVarRanges(a, t, n);
      ExtendedOk(v, a.Now(), a.shape, n, t, n, n);
      DoneKept(v, a.Now(), a.shape, code, n, n, n);
      CoveredSame(v, a.Now(), a.shape, n, Operands(i));
      ExtendedTemps(v, a.Now(), a.shape, code, n, t);
    }
  }

  /** Of the temporaries those defined by now are widened over the loop. */
  ghost predicate TempsWidened(v: View, v': View, s: Shape, code: Code, n: nat)
    requires n < |code|
  {
    && |v'.vars| == |v.vars|
    && forall u {:trigger v'.vars[u]} :: SELF_INDEX < u < s.temps && u < |v.vars| ==>
         v'.vars[u] == AfterJump(v.vars[u], code, n)
  }

  lemma NothingWidened(v: View, s: Shape, code: Code, n: nat)
    requires n < |code|
    ensures !(IsJump(code[n]) && code[n].disp < 0) ==> TempsWidened(v, v, s, code, n)
  {
  }

  lemma ExtendedTemps(v: View, v': View, s: Shape, code: Code, n: nat, t: nat)
    requires n < |code| && Backward(code, n, t) && Extended(v, v', t, n) && Ok(v, s, n)
    ensures TempsWidened(v, v', s, code, n)
  {
    BackwardIs(code, n, t);
    forall u | SELF_INDEX < u < s.temps && u < |v.vars| ensures v'.vars[u] == AfterJump(v.vars[u], code, n) {
      Below(v, s, n, u);
    }
  }

  lemma CoveredSame(v: View, v': View, s: Shape, off: nat, ops: seq<Operand>)
    requires Ok(v, s, off) && Ok(v', s, off) && Advance(v, v', off) && AllCovered(v, UsesAt(ops, off))
    ensures AllCovered(v', UsesAt(ops, off))
  {
    hide OrderIs, SpecialsOk, Advance, AllCovered;
    CoveredKept(v, v', off, off, UsesAt(ops, off));
  }

  /** The store of a send's result, at the next number. */
  method ScanStore(a: Vars, code: Code, n: nat)
    requires CodeOk(code, a.shape) && n < |code| && Done(a.Now(), a.shape, code, n, n) &&
      AllCovered(a.Now(), UsesAt(Operands(code[n]), n))
    requires forall t {:trigger Backward(code, n, t)} :: Backward(code, n, t) ==> EdgeOk(a.Now(), t, n)
    requires code[n].Send? ==> !a.frameLess
    modifies a, a.vars
    ensures Done(a.Now(), a.shape, code, n + 1, n + 1) && a.frameLess == old(a.frameLess)
    ensures TempsTouched(old(a.Now()), a.Now(), a.shape, NamedAll(StoreOf(code[n])), n + 1)
  {
    hide CodeOk, Done, Ok, Advance, AllCovered, OperandOk, EdgeOk, UseCovered, Backward, TempsTouched, NamedAll, Named;
    NoneNamed();
    var i := code[n];
    ghost var v := a.Now();
    OperandsOk(code, a.shape, n);
    StartOf(v, a.shape, code, n, n);
    if i.Send? && i.store.Some? {
      a.ExamineOperand(i.store.value, n + 1, n);
      CoveredMore(v, a.Now(), a.shape, n, n + 1, UsesAt(Operands(i), n), Use(i.store.value, n + 1));
      OneNamed(i.store.value);
      assert Uses(i, n) == UsesAt(Operands(i), n) + [Use(i.store.value, n + 1)];
    } else {
      Unmoved(v, a.shape, n, n + 1);
      NothingTouched(v, a.shape, n + 1);
      assert Uses(i, n) == UsesAt(Operands(i), n);
    }
    DoneKept(v, a.Now(), a.shape, code, n, n, n + 1);
    StartOf(a.Now(), a.shape, code, n, n + 1);
    EdgesStay(v, a.Now(), a.shape, code, n);
    DoneMore(a.Now(), a.shape, code, n);
  }

  lemma EdgesStay(v: View, v': View, s: Shape, code: Code, n: nat)
    requires Ok(v, s, n) && Advance(v, v', n + 1) && forall t {:trigger Backward(code, n, t)} ::
      Backward(code, n, t) ==> EdgeOk(v, t, n)
    ensures forall t {:trigger Backward(code, n, t)} :: Backward(code, n, t) ==> EdgeOk(v', t, n)
  {
    hide OrderIs, SpecialsOk, Advance, EdgeOk, Backward;
    forall t | Backward(code, n, t) ensures EdgeOk(v', t, n) { EdgeKept(v, v', n, n + 1, t, n); }
  }

  lemma DoneMore(v: View, s: Shape, code: Code, n: nat)
    requires n < |code| && Done(v, s, code, n, n + 1) && AllCovered(v, Uses(code[n], n)) &&
      forall t {:trigger Backward(code, n, t)} :: Backward(code, n, t) ==> EdgeOk(v, t, n)
    ensures Done(v, s, code, n + 1, n + 1)
  {
    hide Ok, SelfOk, CodeCovered, EdgesOk, AllCovered, Backward, EdgeOk;
    OneMore(v, code, n);
  }

  lemma StartOf(v: View, s: Shape, code: Code, n: nat, now: nat)
    requires Done(v, s, code, n, now)
    ensures Ok(v, s, now)
  {
  }

  ghost predicate NeedsNoFrame(code: Code, n: nat)
    requires n <= |code|
  {
    forall i {:trigger code[i]} :: 0 <= i < n ==> !NeedsFrame(code[i])
  }

  // ----- the scan of the bytecodes -----

  /** How a variable starts out. */
  function FirstOf(u: nat, args: nat): Variable
  {
    if u < args + 2 then ARGUMENT else UNUSED
  }

  /** Arguments and temporaries have the ranges of the first n instructions. */
  ghost predicate TempsAre(vars: seq<Variable>, args: nat, limit: nat, code: Code, n: nat)
    requires n <= |code|
  {
    forall u {:trigger vars[u]} ::
      SELF_INDEX < u < limit && u < |vars| ==> vars[u] == RangeAfter(FirstOf(u, args), code, u, n)
  }

  lemma TempsMore(v: View, v1: View, v2: View, w: View, s: Shape, args: nat, code: Code, n: nat)
    requires n < |code| && TempsAre(v.vars, args, s.temps, code, n)
    requires TempsTouched(v, v1, s, NamedAll(Operands(code[n])), n) && TempsWidened(v1, v2, s, code, n) &&
      TempsTouched(v2, w, s, NamedAll(StoreOf(code[n])), n + 1)
    ensures TempsAre(w.vars, args, s.temps, code, n + 1)
  {
    hide NamedAll, Operands, StoreOf, Touch, AfterJump, FirstOf;
    forall u | SELF_INDEX < u < s.temps && u < |w.vars|
      ensures w.vars[u] == RangeAfter(FirstOf(u, args), code, u, n + 1) {
      assert v.vars[u] == RangeAfter(FirstOf(u, args), code, u, n);
      assert v1.vars[u] == AfterUses(v.vars[u], Operands(code[n]), u, n);
      assert v2.vars[u] == AfterJump(v1.vars[u], code, n);
      assert w.vars[u] == AfterUses(v2.vars[u], StoreOf(code[n]), u, n + 1);
    }
  }

  /** scanCode's loop. */
  method ScanBody(a: Vars, code: Code, ghost args: nat) returns (returns_: bool)
    requires CodeOk(code, a.shape) && Done(a.Now(), a.shape, code, 0, 0)
    requires TempsAre(a.vars[..], args, a.shape.temps, code, 0)
    modifies a, a.vars
    ensures Done(a.Now(), a.shape, code, |code|, |code|) &&
      a.frameLess == (old(a.frameLess) && NeedsNoFrame(code, |code|))
    ensures TempsAre(a.vars[..], args, a.shape.temps, code, |code|)
    ensures returns_ <==> exists i {:trigger code[i]} :: 0 <= i < |code| && (code[i].Return? || code[i].OuterReturn?)
  {
    hide CodeOk, Done, NeedsFrame, Offset, NumbersOk, TempsAre;
    var bn := new nat[Offset(code, |code|) + 1](_ => 0);
    var n: nat, p: nat := 0, 0;
    returns_ := false;
    NoNumbers(bn[..], code);
    while n < |code|
      invariant 0 <= n <= |code| && p == Offset(code, n) && fresh(bn) && bn.Length == Offset(code, |code|) + 1 &&
        NumbersOk(bn[..], code, n)
      invariant Done(a.Now(), a.shape, code, n, n) && a.frameLess == (old(a.frameLess) && NeedsNoFrame(code, n))
      invariant returns_ <==> exists i {:trigger code[i]} :: 0 <= i < n && (code[i].Return? || code[i].OuterReturn?)
      invariant TempsAre(a.vars[..], args, a.shape.temps, code, n)
    {
      hide CodeOk, Done, NeedsFrame, Offset, Size, AllCovered, UsesAt, EdgeOk, Backward, NumbersOk;
      hide TempsAre, TempsTouched, TempsWidened, NamedAll;
      ghost var v := a.Now();
      NextNumber(bn[..], code, n);
      ghost var table := bn[..];
      bn[p] := n;
      assert bn[..] == table[p := n];
      p := p + Size(code[n]);
      returns_ := returns_ || code[n].Return? || code[n].OuterReturn?;
      ScanOperands(a, code, n);
      ghost var v1 := a.Now();
      ScanJump(a, code, n, bn, p);
      ghost var v2 := a.Now();
      SendFramed(code[n]);
      ScanStore(a, code, n);
      TempsMore(v, v1, v2, a.Now(), a.shape, args, code, n);
      n := n + 1;
    }
  }

  lemma NoNumbers(bn: seq<nat>, code: Code)
    requires |bn| == Offset(code, |code|) + 1
    ensures NumbersOk(bn, code, 0) && Offset(code, 0) == 0
  {
  }

  lemma NextNumber(bn: seq<nat>, code: Code, n: nat)
    requires n < |code| && NumbersOk(bn, code, n)
    ensures Offset(code, n) < |bn| && NumbersOk(bn[Offset(code, n) := n], code, n + 1) &&
      Offset(code, n + 1) == Offset(code, n) + Size(code[n])
  {
    OffsetMono(code, n, |code|);
    forall t | 0 <= t < n ensures Offset(code, t) != Offset(code, n) { OffsetMono(code, t, n); }
  }

  lemma SendFramed(i: Instr)
    ensures i.Send? ==> NeedsFrame(i)
  {
  }

  // ----- the whole allocation -----

  /** u is live at off. A code without a return ends with a use of self at its last bytecode,
      which may move self's end back behind a store after a last send; then only the bound for
      the collector covers it. */
  ghost predicate LiveAt(v: View, u: nat, off: nat, end: nat)
  {
    u < |v.vars| && u in v.order && v.vars[u].start <= off <= v.vars[u].gcEnd && (off <= v.vars[u].end || off == end)
  }

  ghost predicate UseLive(v: View, use: Use, end: nat)
  {
    HasVars(v, use.op) && forall u {:trigger u in Needs(v, use.op)} ::
      u in Needs(v, use.op) ==> LiveAt(v, u, use.off, end)
  }

  /** Every use of every instruction is within the ranges of the variables it needs. */
  ghost predicate CodeLive(v: View, code: Code)
  {
    forall i, k {:trigger Uses(code[i], i)[k]} ::
      0 <= i < |code| && 0 <= k < |Uses(code[i], i)| ==> UseLive(v, Uses(code[i], i)[k], |code|)
  }

  lemma CoveredLive(v: View, code: Code)
    requires CodeCovered(v, code, |code|)
    ensures CodeLive(v, code)
  {
    hide Covered, Uses;
    forall i, k | 0 <= i < |code| && 0 <= k < |Uses(code[i], i)| ensures UseLive(v, Uses(code[i], i)[k], |code|) {
      var use := Uses(code[i], i)[k];
      assert AllCovered(v, Uses(code[i], i)) && UseCovered(v, use.op, use.off);
      forall u | u in Needs(v, use.op) ensures LiveAt(v, u, use.off, |code|) { IsLive(v, u, use.off, |code|); }
    }
  }

  lemma IsLive(v: View, u: nat, off: nat, end: nat)
    requires Covered(v, u, off)
    ensures LiveAt(v, u, off, end)
  {
  }

  /** Ranges and variables as before, save perhaps an earlier end for self. */
  ghost predicate SameUpTo(v: View, w: View, last: nat)
  {
    && |w.vars| == |v.vars| && w.order == v.order && w.contexts == v.contexts && w.assocs == v.assocs
    && forall u {:trigger w.vars[u]} {:trigger v.vars[u]} :: 0 <= u < |v.vars| ==>
         && w.vars[u].start == v.vars[u].start && w.vars[u].gcEnd >= v.vars[u].gcEnd
         && (w.vars[u].end == v.vars[u].end || (w.vars[u].end == last && w.vars[u].gcEnd >= last))
  }

  lemma LiveSame(v: View, w: View, code: Code, last: nat)
    requires CodeLive(v, code) && SameUpTo(v, w, last) && last + 1 >= |code|
    ensures CodeLive(w, code)
  {
    hide Uses;
    forall i, k | 0 <= i < |code| && 0 <= k < |Uses(code[i], i)| ensures UseLive(w, Uses(code[i], i)[k], |code|) {
      var use := Uses(code[i], i)[k];
      assert UseLive(v, use, |code|);
      UsesEarly(code[i], i);
      assert Needs(w, use.op) == Needs(v, use.op);
      forall u | u in Needs(w, use.op) ensures LiveAt(w, u, use.off, |code|) { assert LiveAt(v, u, use.off, |code|); }
    }
  }

  lemma EdgesSame(v: View, w: View, code: Code, last: nat)
    requires EdgesOk(v, code, |code|) && SameUpTo(v, w, last) && last + 1 >= |code|
    ensures EdgesOk(w, code, |code|)
  {
    hide Backward;
    forall j, t | 0 <= j < |code| && Backward(code, j, t) ensures EdgeOk(w, t, j) {
      assert EdgeOk(v, t, j);
    }
  }

  /** scanCode: what the scan leaves for the registers. */
  ghost predicate Ranges(v: View, code: Code)
  {
    && OrderOk(v.vars, v.order) && CodeLive(v, code) && EdgesOk(v, code, |code|)
    && (forall i {:trigger v.order[i]} ::
      0 <= i < |v.order| ==> v.order[i] < |v.vars| && v.vars[v.order[i]].reg == SPILLED)
    && CONTEXT_INDEX in v.order
  }

  lemma OrderFrom(v: View, now: nat)
    requires OrderIs(v, now)
    ensures OrderOk(v.vars, v.order) && forall i {:trigger v.order[i]} ::
      0 <= i < |v.order| ==> v.order[i] < |v.vars| && v.vars[v.order[i]].reg == SPILLED
  {
    hide Distinct;
    forall i, j | 0 <= i < j < |v.order| ensures v.vars[v.order[i]].start <= v.vars[v.order[j]].start {
      assert v.order[i] < |v.vars| && v.order[j] < |v.vars|;
    }
  }

  lemma SelfDefined(v: View, s: Shape, now: nat)
    requires Ok(v, s, now) && SelfOk(v)
    ensures v.vars[SELF_INDEX].defined
  {
    var k :| 0 <= k < |v.order| && v.order[k] == SELF_INDEX;
    assert RangeOk(v.vars[v.order[k]], now);
  }

  lemma ScannedRanges(v: View, s: Shape, code: Code)
    requires Done(v, s, code, |code|, |code|)
    ensures Ranges(v, code) && SelfOk(v) && v.vars[SELF_INDEX].defined
  {
    SelfDefined(v, s, |code|);
    hide CodeCovered, EdgesOk, OrderOk;
    CoveredLive(v, code);
    OrderFrom(v, |code|);
    ContextKnown(v, s, |code|);
  }

  lemma TailRanges(v: View, code: Code, last: nat)
    requires Ranges(v, code) && SelfOk(v) && last + 1 >= |code|
    ensures Ranges(Used(v, SELF_INDEX, last), code)
  {
    hide CodeLive, EdgesOk, Distinct;
    var w := Used(v, SELF_INDEX, last);
    assert SameUpTo(v, w, last);
    LiveSame(v, w, code, last);
    EdgesSame(v, w, code, last);
  }

  /** scanCode. */
  method ScanCode(a: Vars, code: Code, ghost args: nat)
    requires CodeOk(code, a.shape) && Done(a.Now(), a.shape, code, 0, 0)
    requires TempsAre(a.vars[..], args, a.shape.temps, code, 0)
    modifies a, a.vars
    ensures Ranges(a.Now(), code) && a.frameLess == (old(a.frameLess) && NeedsNoFrame(code, |code|))
    ensures SelfKnown(a.vars[..], code)
    ensures TempsAre(a.vars[..], args, a.shape.temps, code, |code|)
  {
    hide CodeOk, Done, NeedsFrame, Ranges, Used, TempsAre, SelfKnown;
    var returns_ := ScanBody(a, code, args);
    ScannedRanges(a.Now(), a.shape, code);
    if !returns_ {
      var last := if code == [] then 0 else |code| - 1;
      TailRanges(a.Now(), code, last);
      TailTemps(a.Now(), a.shape, args, code, last);
      TailSelf(a.Now(), code, last);
      a.Use(SELF_INDEX, last);
    } else {
      ReturnsSelf(a.Now(), code);
    }
  }

  ghost predicate Returns(code: Code)
  {
    exists i {:trigger code[i]} :: 0 <= i < |code| && (code[i].Return? || code[i].OuterReturn?)
  }

  function LastOf(code: Code): nat
  {
    if code == [] then 0 else |code| - 1
  }

  /** Self is there from the start, and to the last instruction of a code that falls off its end
      and answers self. */
  ghost predicate SelfKnown(vars: seq<Variable>, code: Code)
  {
    && SELF_INDEX < |vars| && vars[SELF_INDEX].defined && vars[SELF_INDEX].start == 0
    && (!Returns(code) ==> vars[SELF_INDEX].end == LastOf(code) <= vars[SELF_INDEX].gcEnd)
  }

  lemma TailSelf(v: View, code: Code, last: nat)
    requires SelfOk(v) && v.vars[SELF_INDEX].defined && last == LastOf(code)
    ensures SelfKnown(Used(v, SELF_INDEX, last).vars, code)
  {
  }

  lemma ReturnsSelf(v: View, code: Code)
    requires SelfOk(v) && v.vars[SELF_INDEX].defined && Returns(code)
    ensures SelfKnown(v.vars, code)
  {
  }

  lemma TailTemps(v: View, s: Shape, args: nat, code: Code, last: nat)
    requires SELF_INDEX < |v.vars| && TempsAre(v.vars, args, s.temps, code, |code|)
    ensures TempsAre(Used(v, SELF_INDEX, last).vars, args, s.temps, code, |code|)
  {
    hide RangeAfter;
  }

  /** Nothing but self and the arguments from i + 2 on is defined, and those are there from the start. */
  ghost predicate ArgumentsFrom(v: View, args: nat, i: int)
  {
    && |v.vars| >= args + 2 && (forall u {:trigger v.vars[u]} ::
      0 <= u < |v.vars| ==> v.vars[u] == if i + 1 < u <= args + 1 then ARGUMENT else UNUSED)
    && (i < args ==> i + 2 in v.order)
  }

  lemma ArgumentMore(v: View, args: nat, i: nat)
    requires ArgumentsFrom(v, args, i) && i <= args
    ensures ArgumentsFrom(Defined(v, i + 1, 0), args, i - 1)
  {
    var w := Defined(v, i + 1, 0);
    assert w.order[|v.order|] == i + 1;
  }

  /** Self and the arguments, last one first. */
  method DefineNamed(a: Vars, args: nat)
    requires a.Now() == View(a.vars[..], a.shape.temps, map[], map[], []) && args + 2 <= a.shape.temps
    requires ArgumentsFrom(a.Now(), args, args) && a.shape.temps <= a.vars.Length
    modifies a`order, a.vars
    ensures OrderIs(a.Now(), 0) && a.Now() == View(a.vars[..], a.shape.temps, map[], map[], a.order)
    ensures ArgumentsFrom(a.Now(), args, -1)
  {
    hide Defined, Advance, OrderIs, ArgumentsFrom;
    NothingNamed(a.Now(), args);
    var i: int := args;
    while i >= 0
      invariant -1 <= i <= args && OrderIs(a.Now(), 0) && ArgumentsFrom(a.Now(), args, i)
      invariant a.Now() == View(a.vars[..], a.shape.temps, map[], map[], a.order)
      decreases i
    {
      hide Defined, Advance, OrderIs, ArgumentsFrom;
      ghost var v := a.Now();
      Unnamed(v, args, i, i + 1);
      DefinedOk(v, 0, i + 1, 0);
      ArgumentMore(v, args, i);
      a.DefineVar(i + 1, 0);
      DefinedAt(v, i + 1);
      i := i - 1;
    }
  }

  lemma NothingNamed(v: View, args: nat)
    requires ArgumentsFrom(v, args, args) && v.order == []
    ensures OrderIs(v, 0)
  {
    NoVariables(v);
  }

  lemma Unnamed(v: View, args: nat, i: int, u: nat)
    requires ArgumentsFrom(v, args, i) && -1 <= i <= args && u <= i + 1
    ensures u < |v.vars| && !v.vars[u].defined
  {
    assert v.vars[u] == UNUSED;
  }

  /** The context, self and the arguments are live from the start. */
  method DefineArguments(a: Vars, args: nat)
    requires a.Now() == View(a.vars[..], a.shape.temps, map[], map[], []) && args + 2 <= a.shape.temps
    requires a.vars.Length == a.shape.temps + CONTEXT_LEVELS + a.shape.literals && forall u {:trigger a.vars[u]} ::
      0 <= u < a.vars.Length ==> a.vars[u] == UNUSED
    modifies a, a.vars
    ensures Ok(a.Now(), a.shape, 0) && SelfOk(a.Now()) && a.frameLess == old(a.frameLess)
    ensures forall u {:trigger a.vars[u]} :: SELF_INDEX < u < a.vars.Length ==> a.vars[u] == FirstOf(u, args)
  {
    hide Defined, Advance, OrderIs, SpecialsOk;
    DefineNamed(a, args);
    ghost var v := a.Now();
    DefinedOk(v, 0, CONTEXT_INDEX, 0);
    a.DefineVar(CONTEXT_INDEX, 0);
    DefinedAt(v, CONTEXT_INDEX);
    ghost var w := a.Now();
    a.contexts := map[0 := CONTEXT_INDEX];
    OrderSame(w, a.Now(), 0);
    FirstSpecials(a.Now(), a.shape);
  }

  lemma NoVariables(v: View)
    requires v.order == [] && forall u {:trigger v.vars[u]} :: 0 <= u < |v.vars| ==> !v.vars[u].defined
    ensures OrderIs(v, 0)
  {
  }

  lemma FirstSpecials(v: View, s: Shape)
    requires v.contexts == map[0 := CONTEXT_INDEX] && v.assocs == map[] && v.varsSize == s.temps &&
      CONTEXT_INDEX in v.order && s.temps >= 2 && |v.vars| == s.temps + CONTEXT_LEVELS + s.literals
    ensures SpecialsOk(v, s)
  {
  }

  lemma DefinedAt(v: View, u: nat)
    requires u < |v.vars|
    ensures u in Defined(v, u, 0).order &&
      Defined(v, u, 0) == v.(vars := v.vars[u := Variable(true, SPILLED, 0, 0, 0)], order := v.order + [u])
    ensures forall x {:trigger x in Defined(v, u, 0).order} :: x in v.order ==> x in Defined(v, u, 0).order
  {
    Prefix(v, Defined(v, u, 0), u);
  }

  /** The register part of an allocation changes no range. */
  lemma RangesSame(v: View, w: View, code: Code)
    requires Ranges(v, code) && w == v.(vars := w.vars) && SameRanges(v.vars, w.vars)
    ensures CodeLive(w, code) && EdgesOk(w, code, |code|)
  {
    hide CodeLive, EdgesOk, OrderOk;
    assert SameUpTo(v, w, |code|);
    LiveSame(v, w, code, |code|);
    EdgesSame(v, w, code, |code|);
  }

  /** computeRegsAlloc. Variables with intersecting ranges have different registers or none;
      every use lies within its variables' ranges; every range that reaches a loop is covered
      for the collector to the loop's end; temporaries have the exact ranges; and the method is
      frameless exactly if no instruction needs a frame and nothing is spilled, which happens only
      for want of registers and in favour of a variable that ends no later. */
  method ComputeRegsAlloc(code: Code, args: nat, temps: nat, literals: nat, regs: seq<int>, ctx: int) returns (a: Vars)
    requires CodeOk(code, Shape(args + temps + 2, literals)) && RegsOk(regs, ctx)
    ensures OrderOk(a.vars[..], a.order) && Sound(a.vars[..], a.order, |a.order|)
    ensures CodeLive(a.Now(), code) && EdgesOk(a.Now(), code, |code|)
    ensures a.frameLess <==> NeedsNoFrame(code, |code|) && NoneSpilled(a.vars[..], a.order, |a.order|)
    ensures SpilledRightly(a.vars[..], a.order, |a.order|, CONTEXT_INDEX, |regs|)
    ensures NoneSpilled(a.vars[..], a.order, |a.order|) || Crowded(a.vars[..], a.order, CONTEXT_INDEX, |regs|)
    ensures CONTEXT_INDEX < a.vars.Length && a.vars[CONTEXT_INDEX].reg == ctx
    ensures forall i {:trigger a.order[i]} :: 0 <= i < |a.order| && a.order[i] != CONTEXT_INDEX ==>
      a.vars[a.order[i]].reg in regs || a.vars[a.order[i]].reg == SPILLED
    ensures TempsExact(a.vars[..], code, args, temps) && SelfKnown(a.vars[..], code)
  {
    hide CodeOk, RegsOk, Ok, SelfOk, Ranges, CodeLive, EdgesOk, Sound, Crowded, Displaced, NeedsNoFrame, TempsAre,
      TempsExact, SelfKnown;
    a := new Vars(Shape(args + temps + 2, literals));
    DefineArguments(a, args);
    NothingDone(a.Now(), a.shape, code);
    NoTemps(a.vars[..], args, a.shape.temps, code);
    ScanCode(a, code, args);
    ghost var v := a.Now();
    Handover(v, code);
    ScanRegisters(a.vars, a.order, CONTEXT_INDEX, regs, ctx);
    RangesSame(v, a.Now(), code);
    TempsSame(v.vars, a.vars[..], code, args, temps);
    SelfSame(v.vars, a.vars[..], code);
    if a.frameLess {
      var i := 0;
      while i < |a.order| && a.vars[a.order[i]].reg != SPILLED
        invariant 0 <= i <= |a.order| && OrderOk(a.vars[..], a.order) && NoneSpilled(a.vars[..], a.order, i)
      {
        i := i + 1;
      }
      if i < |a.order| { a.frameLess := false; }
    }
  }

  /** Every argument's and every temporary's range is exact. */
  ghost predicate TempsExact(vars: seq<Variable>, code: Code, args: nat, temps: nat)
  {
    && args + temps + 2 <= |vars|
    && (forall u {:trigger vars[u]} :: args + 2 <= u < args + temps + 2 ==> Exact(vars[u], code, u))
    && (forall u {:trigger vars[u]} :: SELF_INDEX < u < args + 2 ==> ExactArgument(vars[u], code, u))
  }

  lemma NoTemps(vars: seq<Variable>, args: nat, limit: nat, code: Code)
    requires forall u {:trigger vars[u]} :: SELF_INDEX < u < |vars| ==> vars[u] == FirstOf(u, args)
    ensures TempsAre(vars, args, limit, code, 0)
  {
  }

  lemma SelfSame(vars: seq<Variable>, vars': seq<Variable>, code: Code)
    requires SelfKnown(vars, code) && SameRanges(vars, vars')
    ensures SelfKnown(vars', code)
  {
  }

  lemma TempsSame(vars: seq<Variable>, vars': seq<Variable>, code: Code, args: nat, temps: nat)
    requires TempsAre(vars, args, args + temps + 2, code, |code|) && SameRanges(vars, vars') &&
      args + temps + 2 <= |vars|
    ensures TempsExact(vars', code, args, temps)
  {
    hide RangeAfter;
    forall u | SELF_INDEX < u < args + temps + 2
      ensures if u < args + 2 then ExactArgument(vars'[u], code, u) else Exact(vars'[u], code, u) {
      RangeExact(code, u);
      assert vars[u] == RangeAfter(FirstOf(u, args), code, u, |code|);
    }
  }

  lemma NothingDone(v: View, s: Shape, code: Code)
    requires Ok(v, s, 0) && SelfOk(v)
    ensures Done(v, s, code, 0, 0)
  {
    hide Ok, SelfOk;
  }

  lemma Handover(v: View, code: Code)
    requires Ranges(v, code)
    ensures OrderOk(v.vars, v.order) && CONTEXT_INDEX in v.order && forall i {:trigger v.order[i]} ::
      0 <= i < |v.order| ==> v.order[i] < |v.vars| && v.vars[v.order[i]].reg == SPILLED
  {
    hide OrderOk, CodeLive, EdgesOk;
  }
}
