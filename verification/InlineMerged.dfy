/** Callee literals join the caller's by the image's own comparison, which takes Strings of equal
    contents for one another, and callee variables are placed by the receiver's shape. So a site
    holds not quite the callee but its merged form: the literals that stand for its own, its
    variables where the guarded class has them. The rewriting is an expansion with that form. */
module InlineMerged {
  import opened Options
  import opened BytecodeMachine
  import opened InlineMeaning
  import opened InlineTheorem
  import opened InlineTemps

  /** The literal that stands for v, or v where none does. */
  ghost function Standing(like: (Value, Value) -> bool, literals: seq<Value>, v: Value): (u: Value)
    ensures forall i: nat {:trigger FirstLike(like, literals, i, v)} ::
      FirstLike(like, literals, i, v) ==> u == literals[i]
    ensures (forall i: nat {:trigger FirstLike(like, literals, i, v)} :: !FirstLike(like, literals, i, v)) ==> u == v
  {
    if i: nat :| FirstLike(like, literals, i, v) then literals[i] else v
  }

  ghost function Merged(like: (Value, Value) -> bool, literals: seq<Value>, m: Method): (r: Method)
    ensures r == m.(literals := r.literals) && |r.literals| == |m.literals|
    ensures forall i {:trigger r.literals[i]} ::
      0 <= i < |m.literals| ==> r.literals[i] == Standing(like, literals, m.literals[i])
  {
    m.(literals := seq(|m.literals|, i requires 0 <= i < |m.literals| => Standing(like, literals, m.literals[i])))
  }

  ghost function MergedSite(x: Rewrite, s: Site): Site
  {
    s.(callee := Merged(x.like, x.new_.literals, s.callee))
  }

  /** The same code, every site holding the merged form of its callee. */
  ghost function Plainly(x: Rewrite): (y: Rewrite)
    ensures y.orig == x.orig && y.new_ == x.new_ && y.base == x.base && y.start == x.start &&
      y.sites.Keys == x.sites.Keys
    ensures forall k {:trigger y.sites[k]} :: k in x.sites ==> y.sites[k] == MergedSite(x, x.sites[k])
    ensures Plain(y)
  {
    x.(sites := map k | k in x.sites :: MergedSite(x, x.sites[k]), like := (a, b) => a == b)
  }

  lemma StandsPlainly(x: Rewrite, i: nat, v: Value)
    requires LiteralIs(x, i, v)
    ensures LiteralIs(Plainly(x), i, Standing(x.like, x.new_.literals, v))
  {
    forall j | 0 <= j < i ensures x.new_.literals[j] != x.new_.literals[i] {}
  }

  lemma PlainAdjusted(x: Rewrite, s: Site, op: Operand, op': Operand)
    requires Adjusted(x, s, op, op')
    ensures Adjusted(Plainly(x), MergedSite(x, s), op, op')
  {
    hide LiteralIs;
    if op.Literal? || op.Assoc? { StandsPlainly(x, op'.index, s.callee.literals[op.index]); }
  }

  lemma PlainImage(x: Rewrite, s: Site, i: Instr, image: Instr)
    requires ImageOf(x, s, i, image)
    ensures ImageOf(Plainly(x), MergedSite(x, s), i, image)
  {
    hide Adjusted, LiteralIs;
    match i
    case Copy(src, dst) =>
      PlainAdjusted(x, s, src, image.source);
      PlainAdjusted(x, s, dst, image.dest);
    case Send(sel, r, args, st) =>
      StandsPlainly(x, image.selector, s.callee.literals[sel]);
      PlainAdjusted(x, s, r, image.receiver);
      forall k | 0 <= k < |args| ensures Adjusted(Plainly(x), MergedSite(x, s), args[k], image.args[k]) {
        PlainAdjusted(x, s, args[k], image.args[k]);
      }
      if st.Some? { PlainAdjusted(x, s, st.value, image.store.value); }
    case Jump(_) =>
    case JumpNotMemberOf(k, op, _) =>
      StandsPlainly(x, image.class_, s.callee.literals[k]);
      PlainAdjusted(x, s, op, image.operand);
  }

  lemma PlainLaid(x: Rewrite, s: Site, store: Option<Operand>, i: nat)
    requires i < |s.callee.code| && i + 1 < |s.at| && Laid(x, s, store, i)
    ensures Laid(Plainly(x), MergedSite(x, s), store, i)
  {
    hide Adjusted, ImageOf, CanFallThrough;
    if s.callee.code[i].Return? {
      if store.Some? { PlainAdjusted(x, s, s.callee.code[i].operand, x.new_.code[s.at[i]].source); }
    } else {
      PlainImage(x, s, s.callee.code[i], x.new_.code[s.at[i]]);
    }
  }

  lemma PlainBody(x: Rewrite, s: Site, store: Option<Operand>)
    requires Body(x, s, store)
    ensures Body(Plainly(x), MergedSite(x, s), store) && BodyEnd(MergedSite(x, s), store) == BodyEnd(s, store)
  {
    hide Laid, CanFallThrough, JumpsTo;
    var y, t := Plainly(x), MergedSite(x, s);
    forall i | 0 <= i < |s.callee.code| ensures BodyAt(y, t, store, i) {
      var _ := s.callee.code[i];
      assert BodyAt(x, s, store, i);
      PlainLaid(x, s, store, i);
    }
    assert SelfCopy(t, store) <==> SelfCopy(s, store);
    assert t.callee.slotBase == t.slotBase && BodyEnd(t, store) == BodyEnd(s, store);
    assert forall i {:trigger t.callee.code[i]} :: 0 <= i < |t.callee.code| ==> BodyAt(y, t, store, i);
  }

  lemma PlainSpills(x: Rewrite, p: nat, receiver: Operand, args: seq<Operand>)
    requires p + 1 + |args| <= |x.new_.code| && Spills(x, p, receiver, args)
    ensures Spills(Plainly(x), p, receiver, args)
  {
    forall a: nat | a < |args| ensures SpillsArg(Plainly(x), p, args, a) { assert SpillsArg(x, p, args, a); }
  }

  lemma PlainSite(x: Rewrite, i: Instr, p: nat, end: nat, s: Site)
    requires SiteCode(x, i, p, end, s) && Standing(x.like, x.new_.literals, s.class_) == s.class_
    ensures SiteCode(Plainly(x), i, p, end, MergedSite(x, s))
  {
    hide Body, BodyEnd, JumpsTo, LiteralIs, Spills;
    PlainBody(x, s, i.store);
    StandsPlainly(x, x.new_.code[p].class_, s.class_);
    PlainSpills(x, p + 1, i.receiver, i.args);
  }

  /** What the inliner emits is an expansion, with the merged callees. */
  lemma PlainExpansion(x: Rewrite)
    requires Spliced(x)
    requires forall k {:trigger x.sites[k]} ::
      k in x.sites ==> Standing(x.like, x.new_.literals, x.sites[k].class_) == x.sites[k].class_
    ensures Expansion(Plainly(x))
  {
    hide SiteCode, RawCode, CallerInstr, JumpsTo, Plain;
    var y := Plainly(x);
    forall k | 0 <= k < |x.orig.code|
      ensures CallerInstr(y.orig, y.base, y.orig.code[k]) && if k in y.sites then SiteAt(y, k, y.sites[k])
        else RawAt(y, k)
    {
      var i := x.orig.code[k];
      if k in x.sites {
        PlainSite(x, i, x.start[k], x.start[k + 1], x.sites[k]);
      } else {
        PlainRaw(x, i, x.start[k], x.start[k + 1]);
      }
    }
  }

  lemma PlainRaw(x: Rewrite, i: Instr, p: nat, end: nat)
    requires RawCode(x, i, p, end)
    ensures RawCode(Plainly(x), i, p, end)
  {}

  // ----- when the merged form is the callee -----

  ghost predicate NoVariable(ops: seq<Operand>)
  {
    forall i {:trigger ops[i]} :: 0 <= i < |ops| ==> !ops[i].InstVar?
  }

  ghost predicate InstrNoVariable(i: Instr)
  {
    match i
    case Copy(s, d) => !s.InstVar? && !d.InstVar?
    case Send(_, r, args, store) => !r.InstVar? && NoVariable(args) && (store.Some? ==> !store.value.InstVar?)
    case Return(op) => !op.InstVar?
    case OuterReturn(op) => !op.InstVar?
    case Jump(_) => true
    case JumpNotMemberOf(_, op, _) => !op.InstVar?
  }

  ghost predicate UsesVariables(m: Method)
  {
    exists i {:trigger m.code[i]} :: 0 <= i < |m.code| && !InstrNoVariable(m.code[i])
  }

  /** A method that names no variable of self does the same whatever the layout. */
  lemma StepRelaid(w: World, m: Method, slotBase: nat, c: Conf)
    requires !UsesVariables(m) && c.Running?
    ensures Step(w, m.(slotBase := slotBase), c) == Step(w, m, c)
  {
    var m' := m.(slotBase := slotBase);
    if c.pc < |m.code| {
      assert InstrNoVariable(m.code[c.pc]);
      if m.code[c.pc].Send? {
        assert ReadArgs(w, m', c.frame, c.heap, m.code[c.pc].args) ==
          ReadArgs(w, m, c.frame, c.heap, m.code[c.pc].args);
      }
    }
  }

  lemma {:induction false} StepsRelaid(w: World, m: Method, slotBase: nat, c: Conf, n: nat)
    requires !UsesVariables(m)
    ensures Steps(w, m.(slotBase := slotBase), c, n) == Steps(w, m, c, n)
    decreases n
  {
    hide Step, UsesVariables;
    if n > 0 && c.Running? {
      StepRelaid(w, m, slotBase, c);
      StepsRelaid(w, m, slotBase, Step(w, m, c), n - 1);
    }
  }

  lemma DispatchesRelaid(w: World, selector: Value, class_: Value, m: Method, slotBase: nat)
    requires Dispatches(w, selector, class_, m) && (UsesVariables(m) ==> m.slotBase == slotBase)
    ensures Dispatches(w, selector, class_, m.(slotBase := slotBase))
  {
    hide Steps, UsesVariables;
    var m' := m.(slotBase := slotBase);
    if m.slotBase != slotBase {
      forall c: Conf, n: nat ensures Steps(w, m', c, n) == Steps(w, m, c, n) { StepsRelaid(w, m, slotBase, c, n); }
      forall c: Conf, v: Value, h': Heap ensures Answers(w, m', c, v, false, h') <==> Answers(w, m, c, v, false, h') {}
    } else {
      assert m' == m;
    }
  }

  lemma WritesRelaid(m: Method, slotBase: nat, written: seq<set<nat>>)
    requires WritesBeforeReads(m, written)
    ensures WritesBeforeReads(m.(slotBase := slotBase), written)
  {
    var m' := m.(slotBase := slotBase);
    hide Offset, JumpsTo;
    forall i | 0 <= i < |m.code| ensures ReadsOk(m', written[i], m.code[i])
      { assert ReadsOk(m, written[i], m.code[i]); }
  }
}
