/** What the live range of a temporary comes to (vm/jit/RegisterAllocator.c): the scan's effect on
    one variable, and the same range from the places where the code mentions it. */
module LiveRanges {
  import opened Options
  import opened BytecodeMachine
  import opened RegisterScan
  import opened Liveness

  function Operands(i: Instr): seq<Operand>
  {
    match i
    case Copy(source, dest) => [source, dest]
    case Send(_, receiver, args, _) => [receiver] + args
    case Return(op) => [op]
    case OuterReturn(op) => [op]
    case Jump(_) => []
    case JumpNotMemberOf(_, op, _) => [op]
  }

  function StoreOf(i: Instr): seq<Operand>
  {
    if i.Send? && i.store.Some? then [i.store.value] else []
  }

  lemma OneNamed(op: Operand)
    ensures NamedAll([op]) == Named(op)
  {
    assert [op][0] == op;
  }

  /** A backward jump at j to instruction t. */
  ghost predicate Backward(code: Code, j: nat, t: nat)
  {
    JumpsTo(code, j, t) && code[j].disp < 0
  }

  lemma BackwardIs(code: Code, j: nat, t: nat)
    requires Backward(code, j, t)
    ensures t <= j && Target(code, j) == Some(t)
  {
    TargetIs(code, j, t);
    if j + 1 < t { OffsetMono(code, j + 1, t); }
  }

  // ----- the scan, for one temporary -----

  const UNUSED := Variable(false, SPILLED, 0, 0, 0)

  /** An argument has its value from the start. */
  const ARGUMENT := Variable(true, SPILLED, 0, 0, 0)

  ghost function Widened(x: Variable, t: nat, j: nat): Variable
  {
    if x.start <= j && x.end >= t && x.gcEnd < j then x.(gcEnd := j) else x
  }

  /** The effect of the uses of some operands at off. */
  function AfterUses(x: Variable, ops: seq<Operand>, u: nat, off: nat): Variable
  {
    if u in NamedAll(ops) then Touch(x, off) else x
  }

  ghost function AfterJump(x: Variable, code: Code, n: nat): Variable
    requires n < |code|
  {
    if IsJump(code[n]) && code[n].disp < 0 && Target(code, n).Some? && x.defined then
      Widened(x, Target(code, n).value, n)
    else x
  }

  ghost function AfterInstr(x: Variable, code: Code, u: nat, n: nat): Variable
    requires n < |code|
  {
    AfterUses(AfterJump(AfterUses(x, Operands(code[n]), u, n), code, n), StoreOf(code[n]), u, n + 1)
  }

  /** The range of u after the first n instructions. */
  ghost function RangeAfter(first: Variable, code: Code, u: nat, n: nat): Variable
    requires n <= |code|
  {
    if n == 0 then first else AfterInstr(RangeAfter(first, code, u, n - 1), code, u, n - 1)
  }

  // ----- the range from the mentions -----

  /** The first n instructions use u at bytecode number off: as an operand of instruction off, or
      for the result of the send before it. */
  predicate Mention(code: Code, u: nat, n: nat, off: nat)
    requires n <= |code|
  {
    || (off < n && u in NamedAll(Operands(code[off])))
    || (0 < off <= n && u in NamedAll(StoreOf(code[off - 1])))
  }

  function Mentions(code: Code, u: nat, n: nat): set<nat>
    requires n <= |code|
  {
    set off: nat | off <= n && Mention(code, u, n, off)
  }

  /** The loop from t to j mentions u. */
  ghost predicate UsedInLoop(code: Code, u: nat, n: nat, j: nat, t: nat)
    requires n <= |code|
  {
    Backward(code, j, t) && exists off {:trigger off in Mentions(code, u, n)} ::
      off in Mentions(code, u, n) && t <= off <= j
  }

  ghost predicate ClosesLoop(code: Code, u: nat, n: nat, j: nat)
    requires n <= |code|
  {
    exists t: nat {:trigger UsedInLoop(code, u, n, j, t)} :: UsedInLoop(code, u, n, j, t)
  }

  /** The ends of the loops that mention u. */
  ghost function LoopEnds(code: Code, u: nat, n: nat): set<nat>
    requires n <= |code|
  {
    set j: nat | j < n && ClosesLoop(code, u, n, j)
  }

  /** [start, end] spans the mentions; gcEnd is the last mention or the end of the last loop
      that has one, whichever is later. */
  ghost predicate Spans(x: Variable, mentions: set<nat>, loops: set<nat>)
  {
    && (x.defined <==> mentions != {}) && (!x.defined ==> loops == {})
    && (x.defined ==> x.start in mentions && x.end in mentions && (x.gcEnd == x.end || x.gcEnd in loops))
    && (forall off {:trigger off in mentions} :: off in mentions ==> x.start <= off <= x.end <= x.gcEnd)
    && (forall j {:trigger j in loops} :: j in loops ==> j <= x.gcEnd)
  }

  ghost predicate Exact(x: Variable, code: Code, u: nat)
  {
    Spans(x, Mentions(code, u, |code|), LoopEnds(code, u, |code|))
  }

  /** For an argument the entry counts as a mention at 0. */
  ghost function ArgumentLoopEnds(code: Code, u: nat, n: nat): set<nat>
    requires n <= |code|
  {
    set j: nat | j < n && (ClosesLoop(code, u, n, j) || Backward(code, j, 0))
  }

  ghost predicate ExactArgument(x: Variable, code: Code, u: nat)
  {
    Spans(x, {0} + Mentions(code, u, |code|), ArgumentLoopEnds(code, u, |code|))
  }

  function Only(b: bool, x: nat): set<nat>
  {
    if b then {x} else {}
  }

  lemma TouchSpans(x: Variable, mentions: set<nat>, loops: set<nat>, off: nat)
    requires Spans(x, mentions, loops) && forall m {:trigger m in mentions} :: m in mentions ==> m <= off
    ensures Spans(Touch(x, off), mentions + {off}, loops)
  {
  }

  lemma UsesSpan(x: Variable, mentions: set<nat>, loops: set<nat>, ops: seq<Operand>, u: nat, off: nat)
    requires Spans(x, mentions, loops) && forall m {:trigger m in mentions} :: m in mentions ==> m <= off
    ensures Spans(AfterUses(x, ops, u, off), mentions + Only(u in NamedAll(ops), off), loops)
  {
    TouchSpans(x, mentions, loops, off);
    assert mentions + {} == mentions;
  }

  lemma WidenSpans(x: Variable, mentions: set<nat>, loops: set<nat>, t: nat, j: nat)
    requires Spans(x, mentions, loops) && x.defined && forall m {:trigger m in mentions} :: m in mentions ==> m <= j
    ensures Spans(Widened(x, t, j), mentions,
      loops + Only(exists m {:trigger m in mentions} :: m in mentions && t <= m <= j, j))
  {
    if x.end >= t { assert x.end in mentions; }
  }

  /** The loop that instruction n closes to t has a mention. */
  ghost predicate LoopAt(code: Code, n: nat, t: nat, mentions: set<nat>)
  {
    Backward(code, n, t) && exists m {:trigger m in mentions} :: m in mentions && t <= m <= n
  }

  ghost predicate Looping(code: Code, n: nat, mentions: set<nat>)
  {
    exists t: nat {:trigger LoopAt(code, n, t, mentions)} :: LoopAt(code, n, t, mentions)
  }

  lemma JumpSpans(x: Variable, mentions: set<nat>, loops: set<nat>, code: Code, n: nat)
    requires n < |code| && Spans(x, mentions, loops) && forall m {:trigger m in mentions} :: m in mentions ==> m <= n
    ensures Spans(AfterJump(x, code, n), mentions, loops + Only(Looping(code, n, mentions), n))
  {
    hide Spans;
    assert loops + {} == loops;
    var back := IsJump(code[n]) && code[n].disp < 0 && Target(code, n).Some?;
    if back && x.defined {
      var t := Target(code, n).value;
      assert Backward(code, n, t);
      WidenSpans(x, mentions, loops, t, n);
      forall t': nat | Backward(code, n, t') ensures t' == t { BackwardIs(code, n, t'); }
      assert Looping(code, n, mentions) <==> LoopAt(code, n, t, mentions);
    } else if back {
      NoMentions(x, mentions, loops);
    } else {
      forall t: nat | Backward(code, n, t) ensures false { BackwardIs(code, n, t); }
    }
  }

  lemma NoMentions(x: Variable, mentions: set<nat>, loops: set<nat>)
    requires Spans(x, mentions, loops)
    ensures x.defined <==> mentions != {}
  {
  }

  lemma MentionsMore(code: Code, u: nat, n: nat)
    requires n < |code|
    ensures Mentions(code, u, n + 1) ==
      Mentions(code, u, n) + Only(u in NamedAll(Operands(code[n])), n) + Only(u in NamedAll(StoreOf(code[n])), n + 1)
  {
  }

  lemma LoopsMore(code: Code, u: nat, n: nat)
    requires n < |code|
    ensures LoopEnds(code, u, n + 1) == LoopEnds(code, u, n) +
      Only(Looping(code, n, Mentions(code, u, n) + Only(u in NamedAll(Operands(code[n])), n)), n)
  {
    hide NamedAll, Looping, ClosesLoop, Mentions, Operands;
    var ms := Mentions(code, u, n) + Only(u in NamedAll(Operands(code[n])), n);
    var a, b := LoopEnds(code, u, n + 1), LoopEnds(code, u, n) + Only(Looping(code, n, ms), n);
    forall j: nat ensures j in a <==> j in b {
      if j <= n { CloseSame(code, u, n, j); }
    }
  }

  lemma CloseSame(code: Code, u: nat, n: nat, j: nat)
    requires j <= n < |code|
    ensures ClosesLoop(code, u, n + 1, j) <==>
      if j < n then ClosesLoop(code, u, n, j)
      else Looping(code, n, Mentions(code, u, n) + Only(u in NamedAll(Operands(code[n])), n))
  {
    hide UsedInLoop, LoopAt, Mentions;
    var ms := Mentions(code, u, n) + Only(u in NamedAll(Operands(code[n])), n);
    forall t: nat ensures UsedInLoop(code, u, n + 1, j, t) <==>
      if j < n then UsedInLoop(code, u, n, j, t) else LoopAt(code, n, t, ms) {
      LoopSame(code, u, n, j, t);
    }
    if ClosesLoop(code, u, n + 1, j) {
      var t: nat :| UsedInLoop(code, u, n + 1, j, t);
      assert if j < n then UsedInLoop(code, u, n, j, t) else LoopAt(code, n, t, ms);
    }
    if j < n && ClosesLoop(code, u, n, j) {
      var t: nat :| UsedInLoop(code, u, n, j, t);
      assert UsedInLoop(code, u, n + 1, j, t);
    }
    if j == n && Looping(code, n, ms) {
      var t: nat :| LoopAt(code, n, t, ms);
      assert UsedInLoop(code, u, n + 1, j, t);
    }
  }

  lemma LoopSame(code: Code, u: nat, n: nat, j: nat, t: nat)
    requires j <= n < |code|
    ensures UsedInLoop(code, u, n + 1, j, t) <==>
      if j < n then UsedInLoop(code, u, n, j, t)
      else LoopAt(code, n, t, Mentions(code, u, n) + Only(u in NamedAll(Operands(code[n])), n))
  {
    hide Mentions, NamedAll, Backward, Operands, StoreOf;
    var ms := Mentions(code, u, n) + Only(u in NamedAll(Operands(code[n])), n);
    var all := Mentions(code, u, n + 1);
    MentionsMore(code, u, n);
    forall off: nat | off <= n ensures off in all <==> off in ms {}
    forall off: nat | off < n ensures off in all <==> off in Mentions(code, u, n) {}
  }

  /** One instruction, from any mentions so far. */
  lemma InstrSpans(x: Variable, ms: set<nat>, js: set<nat>, code: Code, u: nat, n: nat)
    requires n < |code| && Spans(x, ms, js) && forall m {:trigger m in ms} :: m in ms ==> m <= n
    ensures var ops := ms + Only(u in NamedAll(Operands(code[n])), n);
      Spans(AfterInstr(x, code, u, n), ops + Only(u in NamedAll(StoreOf(code[n])), n + 1),
        js + Only(Looping(code, n, ops), n))
  {
    hide Spans, AfterUses, AfterJump, NamedAll, Looping, Operands, StoreOf, Only;
    var i := code[n];
    var ms' := ms + Only(u in NamedAll(Operands(i)), n);
    var y := AfterUses(x, Operands(i), u, n);
    assert forall m {:trigger m in ms'} :: m in ms' ==> m <= n by { OnlyIs(u in NamedAll(Operands(i)), n); }
    UsesSpan(x, ms, js, Operands(i), u, n);
    JumpSpans(y, ms', js, code, n);
    UsesSpan(AfterJump(y, code, n), ms', js + Only(Looping(code, n, ms'), n), StoreOf(i), u, n + 1);
  }

  lemma {:induction false} RangeSpans(code: Code, u: nat, n: nat)
    requires n <= |code|
    ensures Spans(RangeAfter(UNUSED, code, u, n), Mentions(code, u, n), LoopEnds(code, u, n))
  {
    hide Spans, AfterInstr, NamedAll, Looping, Operands, StoreOf, Only, Mentions, LoopEnds;
    if n == 0 {
      NothingSpanned(code, u);
    } else {
      RangeSpans(code, u, n - 1);
      MentionsEarly(code, u, n - 1);
      InstrSpans(RangeAfter(UNUSED, code, u, n - 1), Mentions(code, u, n - 1), LoopEnds(code, u, n - 1), code, u,
        n - 1);
      MentionsMore(code, u, n - 1);
      LoopsMore(code, u, n - 1);
    }
  }

  lemma {:induction false} ArgumentSpans(code: Code, u: nat, n: nat)
    requires n <= |code|
    ensures Spans(RangeAfter(ARGUMENT, code, u, n), {0} + Mentions(code, u, n), ArgumentLoopEnds(code, u, n))
  {
    hide Spans, AfterInstr, NamedAll, Looping, Operands, StoreOf, Only, Mentions, ArgumentLoopEnds;
    if n == 0 {
      EntrySpanned(code, u);
    } else {
      var ms := Mentions(code, u, n - 1);
      ArgumentSpans(code, u, n - 1);
      MentionsEarly(code, u, n - 1);
      InstrSpans(RangeAfter(ARGUMENT, code, u, n - 1), {0} + ms, ArgumentLoopEnds(code, u, n - 1), code, u, n - 1);
      MentionsMore(code, u, n - 1);
      ArgumentLoopsMore(code, u, n - 1);
      var ops := Only(u in NamedAll(Operands(code[n - 1])), n - 1);
      var store := Only(u in NamedAll(StoreOf(code[n - 1])), n);
      assert {0} + ms + ops + store == {0} + (ms + ops + store);
    }
  }

  lemma ArgumentLoopsMore(code: Code, u: nat, n: nat)
    requires n < |code|
    ensures ArgumentLoopEnds(code, u, n + 1) == ArgumentLoopEnds(code, u, n) +
      Only(Looping(code, n, {0} + Mentions(code, u, n) + Only(u in NamedAll(Operands(code[n])), n)), n)
  {
    hide NamedAll, Looping, ClosesLoop, Mentions, Operands, Backward;
    var ops := Only(u in NamedAll(Operands(code[n])), n);
    var ms := Mentions(code, u, n) + ops;
    LoopingEntry(code, n, ms);
    assert {0} + Mentions(code, u, n) + ops == {0} + ms;
    var a, b := ArgumentLoopEnds(code, u, n + 1), ArgumentLoopEnds(code, u, n) + Only(Looping(code, n, {0} + ms), n);
    forall j: nat ensures j in a <==> j in b {
      if j <= n { CloseSame(code, u, n, j); }
    }
  }

  lemma LoopingEntry(code: Code, n: nat, ms: set<nat>)
    ensures Looping(code, n, {0} + ms) <==> Looping(code, n, ms) || Backward(code, n, 0)
  {
    hide Backward;
    if Looping(code, n, {0} + ms) {
      var t: nat :| LoopAt(code, n, t, {0} + ms);
      var m :| m in {0} + ms && t <= m <= n;
      if m in ms { assert LoopAt(code, n, t, ms); }
    }
    if Looping(code, n, ms) {
      var t: nat :| LoopAt(code, n, t, ms);
      var m :| m in ms && t <= m <= n;
      assert m in {0} + ms;
      assert LoopAt(code, n, t, {0} + ms);
    }
    if Backward(code, n, 0) {
      assert 0 in {0} + ms;
      assert LoopAt(code, n, 0, {0} + ms);
    }
  }

  lemma NothingSpanned(code: Code, u: nat)
    ensures Spans(UNUSED, Mentions(code, u, 0), LoopEnds(code, u, 0))
  {
    assert Mentions(code, u, 0) == {};
  }

  lemma EntrySpanned(code: Code, u: nat)
    ensures Spans(ARGUMENT, {0} + Mentions(code, u, 0), ArgumentLoopEnds(code, u, 0))
  {
    assert Mentions(code, u, 0) == {};
  }

  lemma MentionsEarly(code: Code, u: nat, n: nat)
    requires n <= |code|
    ensures forall m {:trigger m in Mentions(code, u, n)} :: m in Mentions(code, u, n) ==> m <= n
  {
    hide Mention;
  }

  lemma OnlyIs(b: bool, x: nat)
    ensures forall m {:trigger m in Only(b, x)} :: m in Only(b, x) ==> m == x
  {
  }

  /** The scan gives every temporary the exact range, and every argument, from the start on. */
  lemma RangeExact(code: Code, u: nat)
    ensures Exact(RangeAfter(UNUSED, code, u, |code|), code, u)
    ensures ExactArgument(RangeAfter(ARGUMENT, code, u, |code|), code, u)
  {
    RangeSpans(code, u, |code|);
    ArgumentSpans(code, u, |code|);
  }
}
