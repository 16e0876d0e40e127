/** The textual live ranges of a method's variables (vm/jit/RegisterAllocator.c): the scan of
    the bytecodes that defines variables at their first use, moves their ends along, and
    widens the collector's bound over backward jumps. */
module Liveness {
  import opened BytecodeMachine
  import opened RegisterScan

  const CONTEXT_LEVELS: nat := 256

  /** contexts and assocs give the variable of a context level or of an association literal. */
  datatype View = View(vars: seq<Variable>, varsSize: nat, contexts: map<nat, nat>, assocs: map<nat, nat>,
    order: seq<nat>)

  /** temps: the slots of context, self, arguments and temporaries; literals: the literal count. */
  datatype Shape = Shape(temps: nat, literals: nat)

  ghost predicate RangeOk(x: Variable, now: nat)
  {
    x.defined && x.reg == SPILLED && x.start <= x.end <= x.gcEnd && x.end <= now
  }

  ghost predicate Sorted(vars: seq<Variable>, order: seq<nat>)
  {
    forall i, j {:trigger order[i], order[j]} ::
      0 <= i < j < |order| && order[i] < |vars| && order[j] < |vars| ==> vars[order[i]].start <= vars[order[j]].start
  }

  ghost predicate OrderIs(v: View, now: nat)
  {
    && Distinct(v.order) && Sorted(v.vars, v.order)
    && (forall i {:trigger v.order[i]} ::
      0 <= i < |v.order| ==> v.order[i] < |v.vars| && v.order[i] < v.varsSize && RangeOk(v.vars[v.order[i]], now))
    && (forall u {:trigger v.vars[u]} :: 0 <= u < |v.vars| && v.vars[u].defined ==> u in v.order)
  }

  ghost predicate SpecialsOk(v: View, s: Shape)
  {
    && 0 in v.contexts && v.contexts[0] == CONTEXT_INDEX
    && (forall l {:trigger v.contexts[l]} :: l in v.contexts ==> l < CONTEXT_LEVELS && v.contexts[l] in v.order)
    && (forall l {:trigger v.assocs[l]} :: l in v.assocs ==> l < s.literals && v.assocs[l] in v.order)
    && (forall l {:trigger v.contexts[l]} ::
      l in v.contexts ==> v.contexts[l] == CONTEXT_INDEX || s.temps <= v.contexts[l])
    && (forall l {:trigger v.assocs[l]} :: l in v.assocs ==> s.temps <= v.assocs[l])
    && v.varsSize + 1 == s.temps + |v.contexts| + |v.assocs|
    && |v.vars| == s.temps + CONTEXT_LEVELS + s.literals && s.temps >= 2
  }

  ghost predicate Ok(v: View, s: Shape, now: nat)
  {
    OrderIs(v, now) && SpecialsOk(v, s)
  }

  /** How one use at off changes a variable that was defined. */
  ghost predicate Moved(x: Variable, x': Variable, off: nat)
  {
    x'.start == x.start && x'.gcEnd >= x.gcEnd && (x'.end == x.end || (x'.end == off && x'.gcEnd >= off))
  }

  /** Uses at off: known variables are moved, new ones start at off. */
  ghost predicate Advance(v: View, v': View, off: nat)
  {
    && |v'.vars| == |v.vars| && v.order <= v'.order
    && (forall l {:trigger v.contexts[l]} :: l in v.contexts ==> l in v'.contexts && v'.contexts[l] == v.contexts[l])
    && (forall l {:trigger v.assocs[l]} :: l in v.assocs ==> l in v'.assocs && v'.assocs[l] == v.assocs[l])
    && (forall i {:trigger v'.order[i]} :: 0 <= i < |v'.order| && v'.order[i] < |v.vars| ==>
          if i < |v.order| then Moved(v.vars[v'.order[i]], v'.vars[v'.order[i]], off)
            else v'.vars[v'.order[i]].start == off)
  }

  lemma AdvanceTrans(a: View, b: View, c: View, off: nat)
    requires Advance(a, b, off) && Advance(b, c, off)
    ensures Advance(a, c, off)
  {
    forall i | 0 <= i < |c.order| && c.order[i] < |a.vars|
      ensures if i < |a.order| then Moved(a.vars[c.order[i]], c.vars[c.order[i]], off)
        else c.vars[c.order[i]].start == off
    {
      if i < |b.order| { assert c.order[i] == b.order[i]; }
    }
  }

  lemma {:induction false} CardBound(s: set<nat>, n: nat)
    requires forall x {:trigger x in s} :: x in s ==> x < n
    ensures |s| <= n
  {
    if n == 0 {
      assert s == {};
    } else {
      var t := s - {n - 1};
      CardBound(t, n - 1);
      assert s <= t + {n - 1};
      if n - 1 in s { assert s == t + {n - 1}; } else { assert s == t; }
    }
  }

  /** There is room for one more special variable. */
  lemma RoomForContext(v: View, s: Shape, level: nat)
    requires SpecialsOk(v, s) && level < CONTEXT_LEVELS && level !in v.contexts
    ensures v.varsSize < |v.vars|
  {
    var keys := v.contexts.Keys + {level};
    CardBound(keys, CONTEXT_LEVELS);
    assert |keys| == |v.contexts| + 1;
    forall x | x in v.assocs.Keys ensures x < s.literals { var _ := v.assocs[x]; }
    CardBound(v.assocs.Keys, s.literals);
  }

  lemma RoomForAssoc(v: View, s: Shape, index: nat)
    requires SpecialsOk(v, s) && index < s.literals && index !in v.assocs
    ensures v.varsSize < |v.vars|
  {
    var keys := v.assocs.Keys + {index};
    forall x | x in v.contexts.Keys ensures x < CONTEXT_LEVELS { var _ := v.contexts[x]; }
    CardBound(v.contexts.Keys, CONTEXT_LEVELS);
    forall x | x in keys ensures x < s.literals { if x != index { var _ := v.assocs[x]; } }
    CardBound(keys, s.literals);
    assert |keys| == |v.assocs| + 1;
  }

  // ----- single updates -----

  /** defineVar, at index u. */
  ghost function Defined(v: View, u: nat, off: nat): View
    requires u < |v.vars|
  {
    v.(vars := v.vars[u := Variable(true, SPILLED, off, off, off)], order := v.order + [u])
  }

  /** A later use. */
  ghost function Used(v: View, u: nat, off: nat): View
    requires u < |v.vars|
  {
    v.(vars := v.vars[u := v.vars[u].(end := off, gcEnd := if off > v.vars[u].gcEnd then off else v.vars[u].gcEnd)])
  }

  lemma DefinedOk(v: View, now: nat, u: nat, off: nat)
    requires OrderIs(v, now) && now <= off && u < |v.vars| && u < v.varsSize && !v.vars[u].defined
    ensures OrderIs(Defined(v, u, off), off) && Advance(v, Defined(v, u, off), off)
  {
    var w := Defined(v, u, off);
    assert u !in v.order;
    forall i | 0 <= i < |w.order| ensures w.order[i] < |w.vars| && w.order[i] < w.varsSize &&
      RangeOk(w.vars[w.order[i]], off) { assert i < |v.order| ==> w.order[i] == v.order[i] && v.order[i] != u; }
    assert Sorted(w.vars, w.order) by {
      forall i, j | 0 <= i < j < |w.order| ensures w.vars[w.order[i]].start <= w.vars[w.order[j]].start {
        assert w.order[i] == v.order[i] && v.order[i] != u && RangeOk(v.vars[v.order[i]], now);
        if j < |v.order| { assert w.order[j] == v.order[j] && v.order[j] != u; }
      }
    }
    forall x | 0 <= x < |w.vars| && w.vars[x].defined
      ensures x in w.order { if x == u { assert w.order[|v.order|] == u; } }
  }

  lemma UsedSorted(v: View, u: nat, off: nat)
    requires Sorted(v.vars, v.order) && u < |v.vars|
    ensures Sorted(Used(v, u, off).vars, v.order)
  {
    var w := Used(v, u, off);
    forall i, j | 0 <= i < j < |v.order| && v.order[i] < |v.vars| && v.order[j] < |v.vars|
      ensures w.vars[v.order[i]].start <= w.vars[v.order[j]].start {
      assert v.vars[v.order[i]].start <= v.vars[v.order[j]].start;
    }
  }

  lemma UsedAdvance(v: View, u: nat, off: nat)
    requires u < |v.vars|
    ensures Advance(v, Used(v, u, off), off)
  {
    var w := Used(v, u, off);
    forall i | 0 <= i < |w.order| && w.order[i] < |v.vars| ensures Moved(v.vars[w.order[i]], w.vars[w.order[i]], off) {}
    hide Moved;
  }

  lemma UsedOk(v: View, now: nat, u: nat, off: nat)
    requires OrderIs(v, now) && now <= off && u in v.order && u < |v.vars|
    ensures OrderIs(Used(v, u, off), off) && Advance(v, Used(v, u, off), off)
  {
    var w := Used(v, u, off);
    UsedSorted(v, u, off);
    UsedAdvance(v, u, off);
    hide Sorted, Distinct, Advance;
    forall i | 0 <= i < |w.order| ensures w.order[i] < |w.vars| && w.order[i] < w.varsSize &&
      RangeOk(w.vars[w.order[i]], off) { assert RangeOk(v.vars[v.order[i]], now); }
    forall x | 0 <= x < |w.vars| && w.vars[x].defined ensures x in w.order { if x != u { var _ := v.vars[x]; } }
  }

  // ----- what a use does to an argument or temporary -----

  /** defineTmpVar, for the one variable it is about. */
  function Touch(x: Variable, off: nat): Variable
  {
    if !x.defined then Variable(true, SPILLED, off, off, off)
    else x.(end := off, gcEnd := if off > x.gcEnd then off else x.gcEnd)
  }

  /** The argument or temporary an operand names. */
  function Named(op: Operand): set<nat>
  {
    match op
    case Temp(i) => {i}
    case Arg(i) => {i}
    case InstVarOf(_, t) => {t}
    case _ => {}
  }

  function NamedAll(ops: seq<Operand>): set<nat>
  {
    set k: nat, u: nat | k < |ops| && u in Named(ops[k]) :: u
  }

  /** Of the arguments and temporaries exactly those named are touched; self is not looked at. */
  ghost predicate TempsTouched(v: View, v': View, s: Shape, named: set<nat>, off: nat)
  {
    && |v'.vars| == |v.vars|
    && forall u {:trigger v'.vars[u]} :: SELF_INDEX < u < s.temps && u < |v.vars| ==>
         v'.vars[u] == if u in named then Touch(v.vars[u], off) else v.vars[u]
  }

  lemma TouchedThen(a: View, b: View, c: View, s: Shape, first: set<nat>, more: set<nat>, off: nat)
    requires TempsTouched(a, b, s, first, off) && TempsTouched(b, c, s, more, off)
    ensures TempsTouched(a, c, s, first + more, off)
  {
    forall u | SELF_INDEX < u < s.temps && u < |a.vars|
      ensures c.vars[u] == if u in first + more then Touch(a.vars[u], off) else a.vars[u] {
      assert b.vars[u] == if u in first then Touch(a.vars[u], off) else a.vars[u];
    }
  }

  lemma NoneMore()
    ensures var none: set<nat> := {};
      none + none == none
  {
  }

  lemma OneTouched(v: View, w: View, s: Shape, u: nat, off: nat)
    requires u < |v.vars| && w.vars == v.vars[u := Touch(v.vars[u], off)]
    ensures TempsTouched(v, w, s, {u}, off)
  {}

  // ----- uses of operands -----

  ghost predicate Covered(v: View, u: nat, off: nat)
  {
    u < |v.vars| && u in v.order && v.vars[u].start <= off <= v.vars[u].end <= v.vars[u].gcEnd
  }

  ghost predicate OperandOk(op: Operand, s: Shape)
  {
    match op
    case Temp(i) => i < s.temps
    case Arg(i) => i < s.temps
    case InstVarOf(_, t) => t < s.temps
    case ContextVar(_, l) => l < CONTEXT_LEVELS
    case Assoc(i) => i < s.literals
    case _ => true
  }

  /** The variables an operand is read or written through. */
  ghost function Needs(v: View, op: Operand): set<nat>
  {
    match op
    case Temp(i) => {i}
    case Arg(i) => {i}
    case InstVarOf(_, t) => {t}
    case Super => {SELF_INDEX}
    case InstVar(_) => {SELF_INDEX}
    case ContextVar(_, l) => if l in v.contexts then {v.contexts[l]} else {}
    case Assoc(i) => if i in v.assocs then {v.assocs[i]} else {}
    case Block(_) => {SELF_INDEX} + if 0 in v.contexts then {v.contexts[0]} else {}
    case _ => {}
  }

  ghost predicate HasVars(v: View, op: Operand)
  {
    match op
    case ContextVar(_, l) => l in v.contexts
    case Assoc(i) => i in v.assocs
    case Block(_) => 0 in v.contexts
    case _ => true
  }

  ghost predicate UseCovered(v: View, op: Operand, off: nat)
  {
    HasVars(v, op) && forall u {:trigger u in Needs(v, op)} :: u in Needs(v, op) ==> Covered(v, u, off)
  }

  predicate OperandNeedsFrame(op: Operand)
  {
    op.ContextVar? || op.Block?
  }

  lemma StaysCovered(v: View, v': View, now: nat, u: nat, o: nat, off: nat)
    requires OrderIs(v, now) && OrderIs(v', off) && Advance(v, v', off) && Covered(v, u, o) && o <= off
    ensures Covered(v', u, o)
  {
    hide Sorted, Distinct;
    var k :| 0 <= k < |v.order| && v.order[k] == u;
    assert v'.order[k] == u;
    assert Moved(v.vars[u], v'.vars[u], off) && RangeOk(v'.vars[u], off);
  }

  lemma UseStaysCovered(v: View, v': View, now: nat, op: Operand, o: nat, off: nat)
    requires OrderIs(v, now) && OrderIs(v', off) && Advance(v, v', off) && UseCovered(v, op, o) && o <= off
    ensures UseCovered(v', op, o)
  {
    hide OrderIs, Covered;
    assert Needs(v', op) == Needs(v, op);
    hide Needs, Advance;
    forall u | u in Needs(v', op) ensures Covered(v', u, o) { StaysCovered(v, v', now, u, o, off); }
  }

  class Vars {
    const vars: array<Variable>
    const shape: Shape
    var varsSize: nat
    var contexts: map<nat, nat>
    var assocs: map<nat, nat>
    var order: seq<nat>
    var frameLess: bool

    ghost function Now(): View
      reads this, vars
    {
      View(vars[..], varsSize, contexts, assocs, order)
    }

    /** No variables yet; room for every one the method can have. */
    constructor (shape: Shape)
      ensures this.shape == shape && fresh(vars) && frameLess
      ensures Now() == View(vars[..], shape.temps, map[], map[], []) &&
        vars.Length == shape.temps + CONTEXT_LEVELS + shape.literals
      ensures forall u {:trigger vars[u]} ::
        0 <= u < vars.Length ==> vars[u] == Variable(false, SPILLED, 0, 0, 0)
    {
      this.shape := shape;
      vars := new Variable[shape.temps + CONTEXT_LEVELS + shape.literals](_ => Variable(false, SPILLED, 0, 0, 0));
      varsSize, contexts, assocs, order, frameLess := shape.temps, map[], map[], [], true;
    }

    /** defineVar. */
    method DefineVar(u: nat, off: nat)
      requires u < vars.Length
      modifies this`order, vars
      ensures Now() == Defined(old(Now()), u, off)
    {
      vars[u] := Variable(true, SPILLED, off, off, off);
      order := order + [u];
    }

    method Use(u: nat, off: nat)
      requires u < vars.Length
      modifies vars
      ensures Now() == Used(old(Now()), u, off)
    {
      vars[u] := vars[u].(end := off);
      if off > vars[u].gcEnd {
        vars[u] := vars[u].(gcEnd := off);
      }
    }

    method DefineTmpVar(index: nat, off: nat, ghost now: nat)
      requires Ok(Now(), shape, now) && now <= off && index < shape.temps
      modifies this`order, vars
      ensures Ok(Now(), shape, off) && Advance(old(Now()), Now(), off) && Covered(Now(), index, off)
      ensures TempsTouched(old(Now()), Now(), shape, {index}, off)
    {
      hide Ok, Advance, Covered, TempsTouched;
      ghost var v := Now();
      Below(v, shape, now, index);
      if !vars[index].defined {
        DefinedAll(v, shape, now, index, off);
        DefineVar(index, off);
      } else {
        UsedAll(v, shape, now, index, off);
        Use(index, off);
      }
      OneTouched(v, Now(), shape, index, off);
    }

    /** defineSpecialVar for a context level: its first use also moves the context's end. */
    method DefineContextVar(level: nat, off: nat, ghost now: nat)
      requires Ok(Now(), shape, now) && now <= off && level < CONTEXT_LEVELS
      modifies this`order, this`contexts, this`varsSize, vars
      ensures Ok(Now(), shape, off) && Advance(old(Now()), Now(), off) && level in contexts &&
        Covered(Now(), contexts[level], off)
      ensures TempsTouched(old(Now()), Now(), shape, {}, off)
    {
      hide Ok, Advance, Covered, TempsTouched, Defined, Used;
      ghost var v := Now();
      ContextKnown(v, shape, now);
      Outside(v, shape, now);
      if level !in contexts {
        UsedAll(v, shape, now, CONTEXT_INDEX, off);
        Use(CONTEXT_INDEX, off);
        ghost var w := Now();
        NewContext(w, shape, off, level, off);
        var u := varsSize;
        varsSize := varsSize + 1;
        DefineVar(u, off);
        contexts := contexts[level := u];
        ContextAdded(v, w, Now(), shape, u, off);
      } else {
        SpecialKnown(v, shape, now, contexts[level]);
        UsedAll(v, shape, now, contexts[level], off);
        Use(contexts[level], off);
        UseOutside(v, shape, contexts[level], off);
      }
    }

    /** defineSpecialVar for an association. */
    method DefineAssocVar(index: nat, off: nat, ghost now: nat)
      requires Ok(Now(), shape, now) && now <= off && index < shape.literals
      modifies this`order, this`assocs, this`varsSize, vars
      ensures Ok(Now(), shape, off) && Advance(old(Now()), Now(), off) && index in assocs &&
        Covered(Now(), assocs[index], off)
      ensures TempsTouched(old(Now()), Now(), shape, {}, off)
    {
      hide Ok, Advance, Covered, TempsTouched, Defined, Used;
      ghost var v := Now();
      Outside(v, shape, now);
      if index !in assocs {
        NewAssoc(v, shape, now, index, off);
        var u := varsSize;
        varsSize := varsSize + 1;
        DefineVar(u, off);
        assocs := assocs[index := u];
        DefineOutside(v, Now(), shape, u, off);
      } else {
        SpecialKnown(v, shape, now, assocs[index]);
        UsedAll(v, shape, now, assocs[index], off);
        Use(assocs[index], off);
        UseOutside(v, shape, assocs[index], off);
      }
    }

    /** examineOperand: afterwards everything the operand needs is live at off. */
    method ExamineOperand(op: Operand, off: nat, ghost now: nat)
      requires Ok(Now(), shape, now) && now <= off && OperandOk(op, shape)
      modifies this, vars
      ensures Ok(Now(), shape, off) && Advance(old(Now()), Now(), off) && UseCovered(Now(), op, off)
      ensures frameLess == (old(frameLess) && !OperandNeedsFrame(op))
      ensures TempsTouched(old(Now()), Now(), shape, Named(op), off)
    {
      hide Ok, Advance, Covered, TempsTouched;
      ghost var v := Now();
      Self(v, shape, now);
      match op
      case Temp(i) => DefineTmpVar(i, off, now);
      case Arg(i) => DefineTmpVar(i, off, now);
      case Super =>
        DefineTmpVar(SELF_INDEX, off, now);
        SelfTouched(v, Now(), shape, off);
      case ContextVar(_, level) =>
        frameLess := false;
        DefineContextVar(level, off, now);
      case Assoc(i) => DefineAssocVar(i, off, now);
      case Block(_) =>
        frameLess := false;
        DefineTmpVar(SELF_INDEX, off, now);
        ghost var w := Now();
        DefineContextVar(0, off, off);
        BlockCovered(v, w, Now(), shape, off);
      case InstVar(_) =>
        DefineTmpVar(SELF_INDEX, off, now);
        SelfTouched(v, Now(), shape, off);
      case InstVarOf(_, t) => DefineTmpVar(t, off, now);
      case _ =>
        Unmoved(v, shape, now, off);
        NothingTouched(v, shape, off);
    }
  }

  /** A block needs self and then the context. */
  lemma BlockCovered(v: View, w: View, x: View, s: Shape, off: nat)
    requires Ok(w, s, off) && Ok(x, s, off) && Advance(v, w, off) && Advance(w, x, off) && Covered(w, SELF_INDEX, off)
    requires TempsTouched(v, w, s, {SELF_INDEX}, off) && TempsTouched(w, x, s, {}, off)
    ensures Covered(x, SELF_INDEX, off) && Advance(v, x, off) && TempsTouched(v, x, s, {}, off)
  {
    hide Ok, Advance, Covered, TempsTouched;
    SelfTouched(v, w, s, off);
    StillCovered(w, x, s, SELF_INDEX, off);
    AdvanceTrans(v, w, x, off);
    TouchedThen(v, w, x, s, {}, {}, off);
    NoneMore();
  }

  lemma SelfTouched(v: View, w: View, s: Shape, off: nat)
    requires TempsTouched(v, w, s, {SELF_INDEX}, off)
    ensures TempsTouched(v, w, s, {}, off)
  {}

  lemma NothingTouched(v: View, s: Shape, off: nat)
    ensures TempsTouched(v, v, s, {}, off)
  {}

  /** Special variables other than the context come after the temporaries. */
  lemma Outside(v: View, s: Shape, now: nat)
    requires Ok(v, s, now)
    ensures s.temps <= v.varsSize
    ensures forall l {:trigger v.contexts[l]} ::
      l in v.contexts ==> v.contexts[l] <= SELF_INDEX || s.temps <= v.contexts[l]
    ensures forall l {:trigger v.assocs[l]} :: l in v.assocs ==> s.temps <= v.assocs[l]
  {
    assert |v.contexts| >= 1 by { assert 0 in v.contexts; }
  }

  lemma UseOutside(v: View, s: Shape, u: nat, off: nat)
    requires u < |v.vars| && (u <= SELF_INDEX || s.temps <= u)
    ensures TempsTouched(v, Used(v, u, off), s, {}, off)
  {}

  lemma ContextAdded(v: View, w: View, x: View, s: Shape, u: nat, off: nat)
    requires CONTEXT_INDEX < |v.vars| && w == Used(v, CONTEXT_INDEX, off) && Advance(v, w, off) && Advance(w, x, off)
    requires s.temps <= u < |w.vars| && x.vars == Defined(w.(varsSize := u + 1), u, off).vars
    ensures Advance(v, x, off) && TempsTouched(v, x, s, {}, off)
  {
    hide Advance, TempsTouched, Used;
    AdvanceTrans(v, w, x, off);
    UseOutside(v, s, CONTEXT_INDEX, off);
    DefineOutside(w, x, s, u, off);
    TouchedThen(v, w, x, s, {}, {}, off);
    NoneMore();
  }

  lemma DefineOutside(v: View, w: View, s: Shape, u: nat, off: nat)
    requires s.temps <= u < |v.vars| && w.vars == Defined(v.(varsSize := u + 1), u, off).vars
    ensures TempsTouched(v, w, s, {}, off)
  {}

  lemma Unmoved(v: View, s: Shape, now: nat, off: nat)
    requires Ok(v, s, now) && now <= off
    ensures Ok(v, s, off) && Advance(v, v, off)
  {
    hide Sorted, Distinct;
  }

  lemma Self(v: View, s: Shape, now: nat)
    requires Ok(v, s, now)
    ensures SELF_INDEX < s.temps
  {
  }

  lemma StillCovered(v: View, v': View, s: Shape, u: nat, off: nat)
    requires Ok(v, s, off) && Ok(v', s, off) && Advance(v, v', off) && Covered(v, u, off)
    ensures Covered(v', u, off)
  {
    hide OrderIs, Covered, Advance;
    StaysCovered(v, v', off, u, off, off);
  }

  lemma Below(v: View, s: Shape, now: nat, u: nat)
    requires Ok(v, s, now) && u < s.temps
    ensures u < |v.vars| && u < v.varsSize && (v.vars[u].defined <==> u in v.order)
  {
    assert |v.contexts| >= 1 by { assert 0 in v.contexts; }
    if u in v.order { var k :| 0 <= k < |v.order| && v.order[k] == u; assert RangeOk(v.vars[v.order[k]], now); }
  }

  lemma SpecialKnown(v: View, s: Shape, now: nat, u: nat)
    requires Ok(v, s, now) && ((exists l {:trigger v.contexts[l]} :: l in v.contexts && v.contexts[l] == u) ||
      (exists l {:trigger v.assocs[l]} :: l in v.assocs && v.assocs[l] == u))
    ensures u in v.order && u < |v.vars|
  {
    hide Sorted, Distinct;
    var k :| 0 <= k < |v.order| && v.order[k] == u;
  }

  lemma ContextKnown(v: View, s: Shape, now: nat)
    requires Ok(v, s, now)
    ensures CONTEXT_INDEX in v.order && CONTEXT_INDEX < |v.vars|
  {
    var _ := v.contexts[0];
  }

  lemma SpecialsSame(v: View, w: View, s: Shape)
    requires SpecialsOk(v, s) && w.contexts == v.contexts && w.assocs == v.assocs && w.varsSize == v.varsSize &&
      |w.vars| == |v.vars| && v.order <= w.order
    ensures SpecialsOk(w, s)
  {
    forall u | u in v.order ensures u in w.order
      { var k :| 0 <= k < |v.order| && v.order[k] == u; assert w.order[k] == u; }
  }

  lemma DefinedAll(v: View, s: Shape, now: nat, u: nat, off: nat)
    requires Ok(v, s, now) && now <= off && u < |v.vars| && u < v.varsSize && !v.vars[u].defined
    ensures Ok(Defined(v, u, off), s, off) && Advance(v, Defined(v, u, off), off) && Covered(Defined(v, u, off), u, off)
  {
    DefinedOk(v, now, u, off);
    SpecialsSame(v, Defined(v, u, off), s);
    assert Defined(v, u, off).order[|v.order|] == u;
    hide OrderIs, SpecialsOk, Advance;
  }

  lemma UsedAll(v: View, s: Shape, now: nat, u: nat, off: nat)
    requires Ok(v, s, now) && now <= off && u in v.order && u < |v.vars|
    ensures Ok(Used(v, u, off), s, off) && Advance(v, Used(v, u, off), off) && Covered(Used(v, u, off), u, off)
  {
    UsedOk(v, now, u, off);
    SpecialsSame(v, Used(v, u, off), s);
    UsedRange(v, u, off, now);
    hide OrderIs, SpecialsOk, Advance;
  }

  lemma UsedRange(v: View, u: nat, off: nat, now: nat)
    requires OrderIs(v, now) && now <= off && u in v.order && u < |v.vars|
    ensures Covered(Used(v, u, off), u, off)
  {
    hide Sorted, Distinct;
    var k :| 0 <= k < |v.order| && v.order[k] == u;
    assert RangeOk(v.vars[v.order[k]], now);
  }

  /** The next special index is free: varsSize is past every variable defined so far. */
  lemma NextIndex(v: View, now: nat)
    requires OrderIs(v, now) && v.varsSize < |v.vars|
    ensures !v.vars[v.varsSize].defined && OrderIs(v.(varsSize := v.varsSize + 1), now)
  {
    var _ := v.vars[v.varsSize];
  }

  lemma OrderSame(v: View, w: View, now: nat)
    requires OrderIs(v, now) && w.vars == v.vars && w.order == v.order && w.varsSize == v.varsSize
    ensures OrderIs(w, now)
  {
    hide Sorted, Distinct, RangeOk;
  }

  lemma AdvanceMore(v: View, v1: View, v2: View, w: View, off: nat)
    requires Advance(v1, v2, off) && v1.vars == v.vars && v1.order == v.order && v1.contexts == v.contexts &&
      v1.assocs == v.assocs
    requires w.vars == v2.vars && w.order == v2.order
    requires forall l {:trigger v.contexts[l]} :: l in v.contexts ==> l in w.contexts && w.contexts[l] == v.contexts[l]
    requires forall l {:trigger v.assocs[l]} :: l in v.assocs ==> l in w.assocs && w.assocs[l] == v.assocs[l]
    ensures Advance(v, w, off)
  {
    hide Moved;
  }

  lemma Prefix(v: View, w: View, u: nat)
    requires w.order == v.order + [u]
    ensures u in w.order && forall x {:trigger x in w.order} :: x in v.order ==> x in w.order
  {
    assert w.order[|v.order|] == u;
    forall x | x in v.order ensures x in w.order
      { var k :| 0 <= k < |v.order| && v.order[k] == x; assert w.order[k] == x; }
  }

  /** What is common to the two kinds of special variables. */
  lemma NewSpecial(v: View, s: Shape, now: nat, off: nat, w: View)
    requires OrderIs(v, now) && now <= off && v.varsSize < |v.vars|
    requires w == Defined(v.(varsSize := v.varsSize + 1), v.varsSize, off).(contexts := w.contexts, assocs := w.assocs)
    requires forall l {:trigger v.contexts[l]} :: l in v.contexts ==> l in w.contexts && w.contexts[l] == v.contexts[l]
    requires forall l {:trigger v.assocs[l]} :: l in v.assocs ==> l in w.assocs && w.assocs[l] == v.assocs[l]
    ensures OrderIs(w, off) && Advance(v, w, off) && Covered(w, v.varsSize, off)
  {
    NextIndex(v, now);
    var v1 := v.(varsSize := v.varsSize + 1);
    var v2 := Defined(v1, v.varsSize, off);
    hide Sorted, Distinct, RangeOk;
    DefinedOk(v1, now, v.varsSize, off);
    OrderSame(v2, w, off);
    AdvanceMore(v, v1, v2, w, off);
    Prefix(v, w, v.varsSize);
    hide OrderIs, Advance;
  }

  lemma NewContext(v: View, s: Shape, now: nat, level: nat, off: nat)
    requires Ok(v, s, now) && now <= off && level < CONTEXT_LEVELS && level !in v.contexts
    ensures v.varsSize < |v.vars|
    ensures var w := Defined(v.(varsSize := v.varsSize + 1), v.varsSize, off).(contexts :=
      v.contexts[level := v.varsSize]);
      Ok(w, s, off) && Advance(v, w, off) && Covered(w, v.varsSize, off)
  {
    hide OrderIs, Advance, Covered;
    RoomForContext(v, s, level);
    var w := Defined(v.(varsSize := v.varsSize + 1), v.varsSize, off).(contexts := v.contexts[level := v.varsSize]);
    NewSpecial(v, s, now, off, w);
    Prefix(v, w, v.varsSize);
    assert |w.contexts| == |v.contexts| + 1;
  }

  lemma NewAssoc(v: View, s: Shape, now: nat, index: nat, off: nat)
    requires Ok(v, s, now) && now <= off && index < s.literals && index !in v.assocs
    ensures v.varsSize < |v.vars|
    ensures var w := Defined(v.(varsSize := v.varsSize + 1), v.varsSize, off).(assocs := v.assocs[index := v.varsSize]);
      Ok(w, s, off) && Advance(v, w, off) && Covered(w, v.varsSize, off)
  {
    hide OrderIs, Advance, Covered;
    RoomForAssoc(v, s, index);
    var w := Defined(v.(varsSize := v.varsSize + 1), v.varsSize, off).(assocs := v.assocs[index := v.varsSize]);
    NewSpecial(v, s, now, off, w);
    Prefix(v, w, v.varsSize);
    assert |w.assocs| == |v.assocs| + 1;
  }
}
