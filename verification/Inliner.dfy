/** The tier-1 inliner: rewrites a method's stream, splicing callee bodies behind an
    exact-class guard. Its output is an Expansion of its input, so it means the same. */
module Inliner {
  import opened Options
  import opened BytecodeMachine
  import opened InlineMeaning
  import opened InlineTheorem
  import opened InlineEligibility
  import opened InlineLayout
  import opened InlineTemps
  import opened InlineMerged
  import opened InlineLiterals
  import opened Relocation

  class Optimizer {
    const env: Env
    const method_: Method
    const asm: Assembler
    var literals: seq<Value>
    var inlineAreaSize: nat
    var inlinedSites: nat
    var siteMap: map<nat, Mark>
    ghost var start: seq<nat>
    ghost var sites: map<nat, Site>

    constructor (env: Env, m: Method)
      ensures this.env == env && method_ == m && literals == m.literals && fresh(asm) && asm.code == []
      ensures inlineAreaSize == 0 && inlinedSites == 0 && siteMap == map[] && start == [0] && sites == map[]
    {
      this.env := env;
      method_ := m;
      asm := new Assembler();
      literals := m.literals;
      inlineAreaSize, inlinedSites, siteMap := 0, 0, map[];
      start, sites := [0], map[];
    }

    function Base(): nat
    {
      2 + method_.argsSize + method_.tempsSize
    }

    /** The rewriting as it stands. */
    ghost function Now(): Rewrite
      reads this, asm
    {
      Rewrite(method_, method_.(code := asm.code, literals := literals, tempsSize :=
        method_.tempsSize + inlineAreaSize), Base(), start, sites, Like(env))
    }

    /** ordCollAddObjectIfNotExists: the first literal that is v, or a String of its contents. */
    method AddLiteral(v: Value) returns (i: nat)
      modifies this`literals
      ensures old(literals) <= literals && |literals| <= |old(literals)| + 1 && LiteralIs(Now(), i, v)
      ensures literals == Merge(Like(env), old(literals), [v])
    {
      MergeOne(Like(env), literals, v);
      i := 0;
      while i < |literals|
        invariant 0 <= i <= |literals|
        invariant forall j {:trigger literals[j]} :: 0 <= j < i ==> !Like(env)(v, literals[j])
      {
        if Like(env)(v, literals[i]) { return; }
        i := i + 1;
      }
      literals := literals + [v];
    }

    /** adjustOperand. */
    method AdjustOperand(callee: Method, slotBase: nat, op: Operand, ghost s: Site) returns (r: Operand)
      requires Coherent(env) && s.callee == callee && s.slotBase == slotBase && OperandEligible(callee, op)
      modifies this`literals
      ensures old(literals) <= literals && Adjusted(Now(), s, op, r)
      ensures 2 * (|literals| - |old(literals)|) <= OperandSize(op)
      ensures literals == Merge(Like(env), old(literals), OperandLiterals(callee, op))
    {
      match op
      case Temp(i) => r := Temp(Base() + 1 + callee.argsSize + (i - 2 - callee.argsSize));
      case Arg(i) => r := Temp(if i == SELF_INDEX then Base() else Base() + 1 + (i - 2));
      case InstVar(i) => r := InstVarOf(slotBase + i, Base());
      case Literal(i) =>
        var k := AddLiteral(callee.literals[i]);
        r := Literal(k);
      case Assoc(i) =>
        var k := AddLiteral(callee.literals[i]);
        r := Assoc(k);
      case _ => r := op;
    }

    /** The arguments, collected back into source order. */
    method AdjustArgs(callee: Method, slotBase: nat, args: seq<Operand>, ghost s: Site)
        returns (sourceArgs: seq<Operand>)
      requires Coherent(env) && s.callee == callee && s.slotBase == slotBase
      requires forall i {:trigger args[i]} :: 0 <= i < |args| ==> OperandEligible(callee, args[i])
      modifies this`literals
      ensures old(literals) <= literals && AdjustedAll(Now(), s, args, Reverse(sourceArgs))
      ensures 2 * (|literals| - |old(literals)|) <= OperandsSize(args)
      ensures literals == Merge(Like(env), old(literals), OperandsLiterals(callee, args))
    {
      hide Adjusted, OperandSize, OperandsSize, OperandLiterals, Merge;
      NoMerge(env, literals);
      NoSize();
      sourceArgs := [];
      ghost var out: seq<Operand> := [];
      for i := 0 to |args|
        invariant old(literals) <= literals && |sourceArgs| == i && |out| == i
        invariant forall k {:trigger out[k]} :: 0 <= k < i ==> sourceArgs[i - 1 - k] == out[k]
        invariant AdjustedAll(Now(), s, args[..i], out)
        invariant 2 * (|literals| - |old(literals)|) <= OperandsSize(args[..i])
        invariant literals == Merge(Like(env), old(literals), OperandsLiterals(callee, args[..i]))
      {
        hide Adjusted, OperandSize, OperandsSize, OperandsLiterals, OperandLiterals, Merge;
        MergeTwo(Like(env), old(literals), OperandsLiterals(callee, args[..i]), OperandLiterals(callee, args[i]));
        OperandsMore(callee, args, i);
        OneMore(args, i);
        ghost var x := Now();
        var a := AdjustOperand(callee, slotBase, args[i], s);
        forall k | 0 <= k < i ensures Adjusted(Now(), s, args[k], out[k]) {
          assert Adjusted(x, s, args[..i][k], out[k]);
          AdjustedGrown(x, Now(), s, s, args[k], out[k]);
        }
        sourceArgs := [a] + sourceArgs;
        out := out + [a];
      }
      assert args[..|args|] == args;
      assert Reverse(sourceArgs) == out;
    }

    /** Remap one callee instruction other than a return; a jump's displacement is left to
        its label. */
    method AdjustInstr(callee: Method, slotBase: nat, i: Instr, ghost s: Site) returns (r: Instr)
      requires Coherent(env) && s.callee == callee && s.slotBase == slotBase
      requires InstrInRange(callee, i) && InstrAccepted(slotBase, i) && !i.Return?
      modifies this`literals
      ensures old(literals) <= literals && ImageOf(Now(), s, i, r) && (IsJump(i) ==> IsJump(r))
      ensures 2 * (|literals| - |old(literals)|) <= Size(i)
      ensures literals == Merge(Like(env), old(literals), InstrLiterals(callee, i, true))
    {
      hide Merge;
      NoMerge(env, literals);
      match i
      case Copy(src, dst) =>
        MergeTwo(Like(env), literals, OperandLiterals(callee, src), OperandLiterals(callee, dst));
        var a := AdjustOperand(callee, slotBase, src, s);
        ghost var x := Now();
        var b := AdjustOperand(callee, slotBase, dst, s);
        AdjustedGrown(x, Now(), s, s, src, a);
        r := Copy(a, b);
      case Send(sel, receiver, args, store) => r := AdjustSend(callee, slotBase, i, s);
      case Jump(d) => r := Jump(0);
      case JumpNotMemberOf(k, op, _) =>
        MergeTwo(Like(env), literals, OperandLiterals(callee, op), [callee.literals[k]]);
        var a := AdjustOperand(callee, slotBase, op, s);
        ghost var x := Now();
        var c := AddLiteral(callee.literals[k]);
        AdjustedGrown(x, Now(), s, s, op, a);
        r := JumpNotMemberOf(c, a, 0);
    }

    method AdjustSend(callee: Method, slotBase: nat, i: Instr, ghost s: Site) returns (r: Instr)
      requires Coherent(env) && s.callee == callee && s.slotBase == slotBase
      requires i.Send? && InstrInRange(callee, i) && InstrAccepted(slotBase, i)
      modifies this`literals
      ensures old(literals) <= literals && ImageOf(Now(), s, i, r)
      ensures 2 * (|literals| - |old(literals)|) <= Size(i)
      ensures literals == Merge(Like(env), old(literals), InstrLiterals(callee, i, true))
    {
      SendMerge(env, literals, callee, i);
      hide Merge, OperandLiterals, OperandsLiterals, InstrLiterals;
      r := AdjustOperands(callee, slotBase, i, s);
      ghost var z := Now();
      if i.store.Some? {
        var dst := AdjustOperand(callee, slotBase, i.store.value, s);
        ImageGrown(z, Now(), s, s, i.(store := None), r, r);
        r := r.(store := Some(dst));
      }
    }

    /** Receiver, arguments and selector of a send, without its store. */
    method AdjustOperands(callee: Method, slotBase: nat, i: Instr, ghost s: Site) returns (r: Instr)
      requires Coherent(env) && s.callee == callee && s.slotBase == slotBase
      requires i.Send? && InstrInRange(callee, i) && InstrAccepted(slotBase, i)
      modifies this`literals
      ensures old(literals) <= literals && r.Send? && ImageOf(Now(), s, i.(store := None), r)
      ensures 2 * (|literals| - |old(literals)|) <= 2 + OperandSize(i.receiver) + OperandsSize(i.args)
      ensures literals == SendMerged(env, old(literals), callee, i)
    {
      hide Merge, OperandLiterals, OperandsLiterals, InstrLiterals, OperandSize, OperandsSize, Adjusted;
      var receiver := AdjustOperand(callee, slotBase, i.receiver, s);
      ghost var x := Now();
      forall k | 0 <= k < |i.args| ensures OperandEligible(callee, i.args[k]) {
        assert InRange(callee, i.args[k]) && OperandAccepted(slotBase, i.args[k]);
      }
      var sourceArgs := AdjustArgs(callee, slotBase, i.args, s);
      ghost var y := Now();
      var sel := AddLiteral(callee.literals[i.selector]);
      ghost var z := Now();
      AdjustedGrown(x, z, s, s, i.receiver, receiver);
      ArgsGrown(y, z, s, i.args, Reverse(sourceArgs));
      r := Send(sel, receiver, Reverse(sourceArgs), None);
    }

    method EmitImage(callee: Method, slotBase: nat, store: Option<Operand>, i: nat, w: Walk,
                     ghost s: Site, ghost first: nat, ghost g: Track) returns (v: Walk, ghost t: Site, ghost h: Track)
      requires Coherent(env) && s.callee == callee && s.slotBase == slotBase && i < |callee.code| &&
        !callee.code[i].Return?
      requires InstrInRange(callee, callee.code[i]) && InstrAccepted(slotBase, callee.code[i])
      requires IsJump(callee.code[i]) ==> Target(callee.code, i).Some?
      requires BodyInv(Now(), s, store, i, i + 1, first, w, g)
      modifies this`literals, asm
      ensures old(literals) <= literals && SameSite(s, t) && old(asm.code) <= asm.code
      ensures 2 * (|literals| - |old(literals)|) <= Size(callee.code[i])
      ensures literals == Merge(Like(env), old(literals), InstrLiterals(callee, callee.code[i], store.Some?))
      ensures BodyInv(Now(), t, store, i + 1, i + 1, first, v, h)
    {
      hide ImageOf, Tracked, OffsetsKept, LaidBelow, ExitsPending, CanFallThrough, SameSizes, InstrInRange, Coherent,
        JumpsListed, Merge;
      ghost var x := Now();
      var image := AdjustInstr(callee, slotBase, callee.code[i], s);
      ghost var y := Now();
      v, h := w, g;
      if IsJump(callee.code[i]) {
        var relocs := AddJump(asm, image, callee.code[i].disp, w.newOffsetAt, w.relocs, Offset(callee.code, i + 1),
          callee.code, s.at, g.jumps);
        v := w.(relocs := relocs);
        h := g.(jumps := g.jumps + [i]);
      } else {
        asm.Emit(image);
        TrackedAppend(callee.code, s.at, s.at, i + 1, x.new_.code, asm.code, w.relocs, g.jumps);
      }
      hide Offset, InstrAccepted;
      MoreListed(callee.code, i, g.jumps);
      t := s.(at := s.at + [|asm.code|]);
      ImageGrown(y, Now(), s, t, callee.code[i], image, asm.code[|asm.code| - 1]);
      ExitsMore(s, t, store, i, w.exits, g.exitOf);
      assert Laid(Now(), t, store, i) by { NotOuter(slotBase, callee.code[i]); }
      BodyInvNext(x, Now(), s, t, store, i, first, w, v, g, h);
    }

    method EmitReturnCode(callee: Method, slotBase: nat, store: Option<Operand>, op: Operand, exits: bool,
        ghost s: Site) returns (exit: Option<Label>, ghost value: Operand)
      requires Coherent(env) && s.callee == callee && s.slotBase == slotBase && OperandEligible(callee, op)
      modifies this`literals, asm
      ensures old(literals) <= literals && old(asm.code) <= asm.code
      ensures 2 * (|literals| - |old(literals)|) <= OperandSize(op)
      ensures literals == Merge(Like(env), old(literals), if store.Some? then OperandLiterals(callee, op) else [])
      ensures |asm.code| == |old(asm.code)| + Copies(store) + (if exits then 1 else 0)
      ensures store.Some? ==> asm.code[|old(asm.code)|] == Copy(value, store.value) && Adjusted(Now(), s, op, value)
      ensures exits ==> asm.code[|old(asm.code)| + Copies(store)].Jump?
      ensures exit == if exits then Some(Label(false, true, |old(asm.code)| + Copies(store))) else None
    {
      hide Adjusted, Offset, Coherent, OperandEligible, Merge, OperandLiterals;
      NoMerge(env, literals);
      exit, value := None, Nil;
      ghost var y := Now();
      if store.Some? {
        var a := AdjustOperand(callee, slotBase, op, s);
        y, value := Now(), a;
        asm.Emit(Copy(a, store.value));
      }
      if exits {
        var l := asm.EmitJump(Jump(0), FRESH);
        exit := Some(l);
      }
      if store.Some? { AdjustedGrown(y, Now(), s, s, op, value); }
    }

    method EmitReturn(callee: Method, slotBase: nat, store: Option<Operand>, selfCopy: bool, i: nat, w: Walk,
                      ghost s: Site, ghost first: nat, ghost g: Track) returns (v: Walk, ghost t: Site, ghost h: Track)
      requires Coherent(env) && s.callee == callee && s.slotBase == slotBase && i < |callee.code| &&
        callee.code[i].Return?
      requires InstrInRange(callee, callee.code[i]) && InstrAccepted(slotBase, callee.code[i])
      requires selfCopy <==> SelfCopy(s, store)
      requires BodyInv(Now(), s, store, i, i + 1, first, w, g)
      modifies this`literals, asm
      ensures old(literals) <= literals && SameSite(s, t) && old(asm.code) <= asm.code
      ensures 2 * (|literals| - |old(literals)|) <= Size(callee.code[i])
      ensures literals == Merge(Like(env), old(literals), InstrLiterals(callee, callee.code[i], store.Some?))
      ensures BodyInv(Now(), t, store, i + 1, i + 1, first, v, h)
    {
      hide Tracked, OffsetsKept, LaidBelow, ExitsPending, Offset, CanFallThrough, SameSizes, Coherent, JumpsListed,
        Adjusted, Laid, JumpsTo, Merge, OperandLiterals;
      ghost var x := Now();
      var op := callee.code[i].operand;
      v, h := w, g;
      var exit, value := EmitReturnCode(callee, slotBase, store, op, i + 1 < |callee.code| || selfCopy, s);
      if exit.Some? {
        v := w.(exits := w.exits + [exit.value]);
        h := g.(exitOf := g.exitOf + [i]);
      }
      t := s.(at := s.at + [|asm.code|]);
      if store.Some? { AdjustedGrown(Now(), Now(), s, t, op, value); }
      ExitsMore(s, t, store, i, w.exits, g.exitOf);
      ReturnLaid(Now(), t, store, i, value);
      TrackedAppend(callee.code, s.at, s.at, i + 1, x.new_.code, asm.code, w.relocs, g.jumps);
      MoreListed(callee.code, i, g.jumps);
      BodyInvNext(x, Now(), s, t, store, i, first, w, v, g, h);
    }

    /** One turn of emitInlinedBody's walk: the jumps waiting for instruction i are bound
        here, then its image is emitted. */
    method EmitBodyInstr(callee: Method, slotBase: nat, store: Option<Operand>, selfCopy: bool, i: nat, w: Walk,
                         ghost s: Site, ghost first: nat, ghost g: Track)
                           returns (v: Walk, ghost t: Site, ghost h: Track)
      requires CalleeOk(env, s) && s.callee == callee && s.slotBase == slotBase && i < |callee.code|
      requires selfCopy <==> SelfCopy(s, store)
      requires BodyInv(Now(), s, store, i, i, first, w, g)
      modifies this`literals, asm
      ensures old(literals) <= literals && SameSite(s, t) && |asm.code| >= |old(asm.code)|
      ensures 2 * (|literals| - |old(literals)|) <= Size(callee.code[i])
      ensures literals == Merge(Like(env), old(literals), InstrLiterals(callee, callee.code[i], store.Some?))
      ensures first <= |old(asm.code)| && asm.code[..first] == old(asm.code)[..first]
      ensures BodyInv(Now(), t, store, i + 1, i + 1, first, v, h)
    {
      hide Laid, ImageOf, Tracked, OffsetsKept, LaidBelow, ExitsPending, Offset, CanFallThrough, SameSizes, Accepted,
        Compiled, InstrAccepted, InstrInRange, Coherent, Retargeted, SelfCopy, Merge, InstrLiterals;
      ghost var x := Now();
      var offset := Offset(callee.code, i);
      v := Walk(w.newOffsetAt[offset := Offset(asm.code, |asm.code|)], w.relocs, w.exits);
      var relocs := BindReached(asm, w.relocs, offset, callee.code, s.at, g.jumps);
      v := v.(relocs := relocs);
      PrefixKept(x.new_.code, asm.code, s.at, g.jumps, first);
      ghost var y := Now();
      BodyInvReached(x, y, s, store, i, first, w, v, g);
      Usable(env, s, i);
      if callee.code[i].Return? {
        v, t, h := EmitReturn(callee, slotBase, store, selfCopy, i, v, s, first, g);
      } else {
        v, t, h := EmitImage(callee, slotBase, store, i, v, s, first, g);
      }
    }

    /** emitInlinedBody: the callee's body, every operand remapped and every jump relocated. */
    method EmitInlinedBody(callee: Method, slotBase: nat, store: Option<Operand>, ghost site: Site)
        returns (ghost s: Site)
      requires CalleeOk(env, site) && site.callee == callee && site.slotBase == slotBase
      modifies this`literals, asm
      ensures old(literals) <= literals && old(asm.code) <= asm.code && SameSite(site, s)
      ensures 2 * (|literals| - |old(literals)|) <= Offset(callee.code, |callee.code|)
      ensures literals == Merge(Like(env), old(literals), BodyLiterals(callee, |callee.code|, store.Some?))
      ensures Body(Now(), s, store) && s.at[0] == |old(asm.code)| && BodyEnd(s, store) == |asm.code|
    {
      hide Laid, LaidBelow, Tracked, OffsetsKept, ExitsPending, Accepted, Compiled, Coherent, CanFallThrough,
        JumpsListed, Retargeted, JumpsTo, Offset, SameSizes, Waiting, InstrLiterals, Merge, BodyLiterals;
      NoBody(env, literals, callee, store.Some?);
      var falls := CalleeCanFallThrough(callee.code);
      var selfCopy := store.Some? && falls;
      ghost var first := |asm.code|;
      s := site.(at := [first]);
      var w := Walk(map[], [], []);
      ghost var g := Track([], []);
      var i := 0;
      BodyInvStart(Now(), s, store, first);
      while i < |callee.code|
        invariant 0 <= i <= |callee.code| && SameSite(site, s) && first <= |asm.code|
        invariant old(literals) <= literals && asm.code[..first] == old(asm.code)
        invariant BodyInv(Now(), s, store, i, i, first, w, g)
        invariant 2 * (|literals| - |old(literals)|) <= Offset(callee.code, i)
        invariant literals == Merge(Like(env), old(literals), BodyLiterals(callee, i, store.Some?))
      {
        hide BodyInv, Size, Merge, InstrLiterals, BodyLiterals;
        BodyMerge(env, old(literals), callee, i, store.Some?);
        OffsetNext(callee.code, i);
        assert CalleeOk(env, s);
        ghost var before := asm.code;
        w, s, g := EmitBodyInstr(callee, slotBase, store, selfCopy, i, w, s, first, g);
        assert before[..first] == asm.code[..first];
        i := i + 1;
      }
      ghost var x := Now();
      var size := Offset(callee.code, |callee.code|);
      ghost var v := w.(newOffsetAt := w.newOffsetAt[size := Offset(asm.code, |asm.code|)]);
      var relocs := BindReached(asm, w.relocs, size, callee.code, s.at, g.jumps);
      v := v.(relocs := relocs);
      PrefixKept(x.new_.code, asm.code, s.at, g.jumps, first);
      ghost var y := Now();
      BodyInvReached(x, y, s, store, i, first, w, v, g);
      if selfCopy { asm.Emit(Copy(Temp(Base()), store.value)); }
      ghost var z := Now();
      LaidOn(y, z, s, store);
      ExitsOrdered(z, s, store, w.exits, g.exitOf);
      BindExits(asm, w.exits);
      BodyComplete(env, y, z, Now(), s, store, first, v, g);
      ExitsAfter(s, store, first, w.exits, g.exitOf);
      assert forall k :: 0 <= k < first ==> asm.code[k] == old(asm.code)[k];
    }

    /** Single evaluation: the receiver, then the arguments in source order, into the inline area. */
    method EmitSpills(receiver: Operand, args: seq<Operand>)
      modifies asm
      ensures old(asm.code) <= asm.code && |asm.code| == |old(asm.code)| + 1 + |args|
      ensures Spills(Now(), |old(asm.code)|, receiver, args)
    {
      ghost var p := |asm.code|;
      asm.Emit(Copy(receiver, Temp(Base())));
      for k := 0 to |args|
        invariant old(asm.code) <= asm.code && |asm.code| == p + 1 + k
        invariant asm.code[p] == Copy(receiver, Temp(Base()))
        invariant forall a {:trigger asm.code[a]} ::
          p < a < p + 1 + k ==> asm.code[a] == Copy(args[|args| - (a - p)], Temp(Base() + (a - p)))
      {
        asm.Emit(Copy(args[|args| - 1 - k], Temp(Base() + 1 + k)));
      }
      forall a: nat | a < |args| ensures SpillsArg(Now(), p, args, a) { var _ := asm.code[p + 1 + a]; }
    }

    /** The code of one inlined site: guard, spills, body, the jump past the fallback, and the
        fallback, which is the original send rebuilt from its arguments in source order. */
    method EmitSite(i: Instr, class_: Value, callee: Method, slotBase: nat) returns (ghost s: Site)
      requires i.Send? && !i.receiver.Super? && |i.args| == callee.argsSize
      requires CalleeOk(env, Site(class_, 0, callee, slotBase, []))
      modifies this`literals, this`siteMap, asm
      ensures old(literals) <= literals && 2 * (|literals| - |old(literals)|) <= Offset(callee.code, |callee.code|) + 2
      ensures old(asm.code) <= asm.code && siteMap == old(siteMap)[|old(asm.code)| := SpecGuard]
      ensures SiteCode(Now(), i, |old(asm.code)|, |asm.code|, s) && SameSite(Site(class_, 0, callee, slotBase, []), s)
      ensures literals == Merge(Like(env), old(literals), SiteLiterals(class_, callee, i))
    {
      hide Body, BodyEnd, Spills, JumpsTo, Accepted, Compiled, Coherent, SameSizes, SameButDisp, Offset, Kept;
      hide Merge, BodyLiterals;
      MergeTwo(Like(env), literals, [class_], BodyLiterals(callee, |callee.code|, i.store.Some?));
      ghost var p := |asm.code|;
      var classLiteral := AddLiteral(class_);
      siteMap := siteMap[|asm.code| := SpecGuard];
      var fallback := asm.EmitJump(JumpNotMemberOf(classLiteral, i.receiver, 0), FRESH);
      ghost var guard := asm.code[p];
      EmitSpills(i.receiver, i.args);
      ghost var x := Now();
      s := EmitInlinedBody(callee, slotBase, i.store, Site(class_, classLiteral, callee, slotBase, []));
      ghost var y := Now();
      SiteTail(i, fallback, s, p, x, y);
    }

    /** From the end of the body: jump over the fallback, and the fallback. */
    method SiteTail(i: Instr, fallback: Label, ghost s: Site, ghost p: nat, ghost x: Rewrite, ghost y: Rewrite)
      requires y == Now() && Follows(x, y) && x.new_.code <= y.new_.code
      requires i.Send? && !i.receiver.Super? && |i.args| == s.callee.argsSize
      requires Body(y, s, i.store) && BodyEnd(s, i.store) == |asm.code| && s.at[0] == p + 2 + |i.args| == |x.new_.code|
      requires fallback == Label(false, true, p) && Guard(x, s, p, i.receiver) && Spills(x, p + 1, i.receiver, i.args)
      modifies asm
      ensures old(asm.code)[..p] <= asm.code && |asm.code| == |old(asm.code)| + 2
      ensures SiteCode(Now(), i, p, |asm.code|, s)
    {
      hide Body, Spills, JumpsTo, CanFallThrough, SelfCopy, Size, Offset, SameButDisp, BodyEnd, SameSizes, SiteCode;
      ghost var q := |asm.code|;
      assert p < q && IsJump(asm.code[p]);
      var done := EmitJumpPast(asm, fallback);
      ghost var bound := asm.code;
      EmitFallback(asm, i, done);
      TailLaid(x, y, Now(), bound, bound + [i], i, p, q, s);
    }

    /** tryInlineSite: the site is inlined exactly when its feedback, its operands, the callee
        and the two budgets all allow it; otherwise nothing changes. */
    method TryInlineSite(i: Instr, cell: Cell) returns (done: bool, ghost s: Site)
      requires Coherent(env) && i.Send? && i.selector < |method_.literals|
      modifies this`literals, this`inlineAreaSize, this`inlinedSites, this`siteMap, asm
      ensures done <==> Inlinable(env, method_, |old(literals)|, i, cell)
      ensures !done ==> literals == old(literals) && asm.code == old(asm.code) && siteMap == old(siteMap)
      ensures !done ==> inlineAreaSize == old(inlineAreaSize) && inlinedSites == old(inlinedSites)
      ensures done ==> old(literals) <= literals && |literals| <= OPT_MAX_LITERALS
      ensures done ==> old(asm.code) <= asm.code && siteMap == old(siteMap)[|old(asm.code)| := SpecGuard]
      ensures done ==> SiteCode(Now(), i, |old(asm.code)|, |asm.code|, s) && SiteChosen(env, method_, i, cell, s)
      ensures done ==> literals == Merge(Like(env), old(literals), SiteLiterals(s.class_, s.callee, i))
      ensures done ==> inlinedSites == old(inlinedSites) + 1
      ensures done ==> inlineAreaSize == Larger(old(inlineAreaSize), 1 + s.callee.argsSize + s.callee.tempsSize)
    {
      hide Accepted, Compiled, SiteCode, Offset, Merge, SiteLiterals;
      s := Site(NIL, 0, method_, 0, []);
      done := false;
      if !Guardable(i.receiver) || (i.store.Some? && !Copyable(i.store.value)) || !cell.Mono? { return; }
      var selector := method_.literals[i.selector];
      var found := env.lookup(cell.class_, selector);
      if found.None? { return; }
      var slotBase := env.slotBase(cell.class_);
      var callee := found.value.(slotBase := slotBase);
      Relaid(env, found.value, slotBase);
      var size := Offset(callee.code, |callee.code|);
      if callee.argsSize != |i.args| { return; }
      var eligible := InlineEligible(env.inlineMax, slotBase, callee);
      if !eligible || |literals| + size / 2 + 1 > OPT_MAX_LITERALS ||
        Base() - 2 + 1 + |i.args| + callee.tempsSize > OPT_MAX_TEMPS {
        return;
      }
      s := EmitSite(i, cell.class_, callee, slotBase);
      ghost var x := Now();
      inlineAreaSize := Larger(inlineAreaSize, 1 + |i.args| + callee.tempsSize);
      inlinedSites := inlinedSites + 1;
      SiteKeeps(x, Now(), i, |old(asm.code)|, |asm.code|, s);
      done := true;
    }

    ghost predicate WalkInv(cells: seq<Cell>, k: nat, reached: nat, newOffsetAt: map<nat, nat>, relocs: seq<Reloc>,
        jumps: seq<nat>)
      reads this, asm
    {
      CallerInv(Now(), k, reached, newOffsetAt, relocs, jumps) &&
        Books(env, cells, Now(), inlineAreaSize, siteMap, inlinedSites, k)
    }

    /** A send: inlined where its cell allows, otherwise copied with its cell noted. */
    method WalkSend(cells: seq<Cell>, k: nat, cellIndex: nat, ghost newOffsetAt: map<nat, nat>,
        ghost relocs: seq<Reloc>, ghost jumps: seq<nat>)
      requires Coherent(env) && k < |method_.code| && method_.code[k].Send? &&
        method_.code[k].selector < |method_.literals|
      requires cellIndex == DynamicBefore(env, method_, k)
      requires WalkInv(cells, k, k + 1, newOffsetAt, relocs, jumps)
      modifies this, asm
      ensures WalkInv(cells, k + 1, k + 1, newOffsetAt, relocs, jumps)
    {
      hide CallerInv, SiteCode, Offset, Coherent, Inlinable, SiteChosen, DynamicBefore, Books, Merge, SiteLiterals;
      var i := method_.code[k];
      ghost var x, marks := Now(), siteMap;
      var hasCell := IsDynamic(env, method_, i) && cellIndex < |cells|;
      if hasCell && |i.args| <= OPT_MAX_ARGS {
        var done, s := TryInlineSite(i, cells[cellIndex]);
        if done {
          ghost var z := Now();
          sites := sites[k := s];
          start := start + [|asm.code|];
          SendInlined(env, cells, x, z, Now(), old(inlineAreaSize), inlineAreaSize, marks, siteMap, old(inlinedSites),
            k, newOffsetAt, relocs, jumps, s);
          return;
        }
      }
      if hasCell { siteMap := siteMap[|asm.code| := CellOf(cellIndex)]; }
      assert !Inlines(env, method_, cells, k, |literals|);
      hide Inlines;
      asm.Emit(i);
      start := start + [|asm.code|];
      SendCopied(env, cells, x, Now(), inlineAreaSize, marks, siteMap, inlinedSites, k, newOffsetAt, relocs, jumps);
    }

    /** A copy or a return passes through; a jump is re-emitted through its relocation. */
    method WalkOther(cells: seq<Cell>, k: nat, newOffsetAt: map<nat, nat>, relocs: seq<Reloc>, ghost jumps: seq<nat>)
        returns (r: seq<Reloc>, ghost js: seq<nat>)
      requires k < |method_.code| && !method_.code[k].Send? &&
        (IsJump(method_.code[k]) ==> Target(method_.code, k).Some?)
      requires WalkInv(cells, k, k + 1, newOffsetAt, relocs, jumps)
      modifies this, asm
      ensures WalkInv(cells, k + 1, k + 1, newOffsetAt, r, js)
    {
      hide SiteCode, Offset, DynamicBefore, Books, Tracked, OffsetsKept, PlacedBelow, JumpsListed;
      var i := method_.code[k];
      ghost var x := Now();
      r, js := relocs, jumps;
      if IsJump(i) {
        r := AddJump(asm, i, i.disp, newOffsetAt, relocs, Offset(method_.code, k + 1), method_.code, start, jumps);
        js := jumps + [k];
        assert x.new_.code <= asm.code;
        start := start + [|asm.code|];
        JumpCopied(env, cells, x, Now(), inlineAreaSize, siteMap, inlinedSites, k, newOffsetAt, relocs, r, jumps);
      } else {
        asm.Emit(i);
        start := start + [|asm.code|];
        SendCopied(env, cells, x, Now(), inlineAreaSize, siteMap, siteMap, inlinedSites, k, newOffsetAt, relocs, jumps);
      }
    }

    /** Instruction k: bind the jumps that waited for it, then emit it. */
    method WalkInstr(cells: seq<Cell>, k: nat, cellIndex: nat, newOffsetAt: map<nat, nat>, relocs: seq<Reloc>,
        ghost jumps: seq<nat>)
      returns (next: nat, offsets: map<nat, nat>, r: seq<Reloc>, ghost js: seq<nat>)
      requires Coherent(env) && k < |method_.code| && InstrInRange(method_, method_.code[k])
      requires IsJump(method_.code[k]) ==> Target(method_.code, k).Some?
      requires cellIndex == DynamicBefore(env, method_, k) && WalkInv(cells, k, k, newOffsetAt, relocs, jumps)
      modifies this, asm
      ensures next == DynamicBefore(env, method_, k + 1) && WalkInv(cells, k + 1, k + 1, offsets, r, js)
    {
      hide SiteCode, Offset, Books, Tracked, OffsetsKept, PlacedBelow, JumpsListed, Coherent, Retargeted;
      ghost var x := Now();
      var offset := Offset(method_.code, k);
      offsets := newOffsetAt[offset := Offset(asm.code, |asm.code|)];
      r := BindReached(asm, relocs, offset, method_.code, start, jumps);
      CallerReached(x, Now(), k, newOffsetAt, offsets, relocs, r, jumps);
      BooksKept(env, cells, x, Now(), inlineAreaSize, siteMap, inlinedSites, k);
      next, js := cellIndex, jumps;
      if method_.code[k].Send? {
        if IsDynamic(env, method_, method_.code[k]) { next := cellIndex + 1; }
        WalkSend(cells, k, cellIndex, offsets, r, jumps);
      } else {
        r, js := WalkOther(cells, k, offsets, r, jumps);
      }
    }

    /** The walk over the method, every jump bound at its end. */
    method WalkAll(cells: seq<Cell>)
      requires Coherent(env) && Compiled(method_) && WalkInv(cells, 0, 0, map[], [], [])
      requires forall i: nat {:trigger method_.code[i]} ::
        i < |method_.code| && IsJump(method_.code[i]) ==> Target(method_.code, i).Some?
      modifies this, asm
      ensures Spliced(Now()) && Books(env, cells, Now(), inlineAreaSize, siteMap, inlinedSites, |method_.code|)
    {
      hide SiteCode, Offset, Books, Tracked, OffsetsKept, PlacedBelow, JumpsListed, Coherent, Retargeted, InstrInRange,
        CallerInv, Spliced;
      var cellIndex: nat, newOffsetAt: map<nat, nat>, relocs: seq<Reloc> := 0, map[], [];
      ghost var jumps: seq<nat> := [];
      var k := 0;
      while k < |method_.code|
        invariant 0 <= k <= |method_.code| && cellIndex == DynamicBefore(env, method_, k)
        invariant WalkInv(cells, k, k, newOffsetAt, relocs, jumps)
      {
        cellIndex, newOffsetAt, relocs, jumps := WalkInstr(cells, k, cellIndex, newOffsetAt, relocs, jumps);
        k := k + 1;
      }
      ghost var x := Now();
      var size := Offset(method_.code, |method_.code|);
      ghost var offsets := newOffsetAt[size := Offset(asm.code, |asm.code|)];
      Ended(x, k, newOffsetAt, relocs, jumps);
      var bound := BindReached(asm, relocs, size, method_.code, start, jumps);
      CallerReached(x, Now(), k, newOffsetAt, offsets, relocs, bound, jumps);
      BooksKept(env, cells, x, Now(), inlineAreaSize, siteMap, inlinedSites, k);
      CallerDone(Now(), offsets, bound, jumps);
    }
  }

  /** optimizeMethod. Nothing is answered exactly when no site can be inlined. What is answered
      expands the method at exactly the sends whose feedback, callee and budgets, at that point of
      the walk, allow it; every inlined site guards the class its own cell saw and holds the
      merged form of what that class looks up, and the site map pairs copies and guards with the
      old cells. */
  method OptimizeMethod(env: Env, m: Method, cells: seq<Cell>)
      returns (r: Option<Method>, siteMap: map<nat, Mark>, ghost x: Rewrite)
    requires Coherent(env) && Compiled(m)
    requires forall i: nat {:trigger m.code[i]} :: i < |m.code| && IsJump(m.code[i]) ==> Target(m.code, i).Some?
    ensures r.None? <==> NoneInlinable(env, m, cells, |m.code|)
    ensures r.Some? ==> Expansion(x) && x.orig == m && x.new_ == r.value && x.base == 2 + m.argsSize + m.tempsSize
    ensures r.Some? ==> Marks(env, m, cells, x.start, x.sites, siteMap, |m.code|)
    ensures r.Some? ==>
      r.value.tempsSize >= m.tempsSize &&
      Installed(env, m, cells, x.new_.literals, x.sites, r.value.tempsSize - m.tempsSize)
    ensures r.Some? ==> forall k: nat {:trigger k in x.sites} ::
      k in x.sites <==> k < |m.code| && InlinedAt(env, m, cells, k)
    ensures r.Some? ==> r.value == m.(code := r.value.code, literals := FrameAt(env, m, cells, |m.code|),
      tempsSize := m.tempsSize + AreaAt(env, m, cells, |m.code|))
    ensures r.None? ==> siteMap == map[]
    ensures r.Some? ==> r.value.tempsSize <= OPT_MAX_TEMPS && |r.value.literals| <= OPT_MAX_LITERALS
  {
    hide Offset, Books, Coherent, Compiled, CallerInv, Spliced, Expansion, Marks, Installed, Chosen;
    siteMap, r := map[], None;
    x := Rewrite(m, m, 0, [], map[], Like(env));
    if env.inlineMax == 0 {
      NothingFits(env, m, cells);
      return;
    }
    var opt := new Optimizer(env, m);
    Started(env, cells, opt.Now());
    opt.WalkAll(cells);
    ghost var z := opt.Now();
    Decided(env, cells, z, opt.inlineAreaSize, opt.siteMap, opt.inlinedSites, |m.code|);
    Finished(env, cells, z, opt.inlineAreaSize, opt.siteMap, |m.code|);
    x := Plainly(z);
    if opt.inlinedSites > 0 {
      r := Some(m.(code := opt.asm.code, literals := opt.literals, tempsSize := m.tempsSize + opt.inlineAreaSize));
      siteMap := opt.siteMap;
    }
  }

  /** The jump over the fallback; the guard's label is bound behind it. */
  method EmitJumpPast(asm: Assembler, fallback: Label) returns (done: Label)
    requires fallback.isResolved && !fallback.isBound && fallback.offset < |asm.code| &&
      IsJump(asm.code[fallback.offset])
    modifies asm
    ensures done == Label(false, true, |old(asm.code)|) && |asm.code| == |old(asm.code)| + 1 &&
      asm.code[|old(asm.code)|].Jump?
    ensures JumpsTo(asm.code, fallback.offset, |asm.code|) &&
      SameButDisp(old(asm.code)[fallback.offset], asm.code[fallback.offset])
    ensures SameSizes(old(asm.code), asm.code, |old(asm.code)|)
    ensures forall k {:trigger asm.code[k]} ::
      0 <= k < |old(asm.code)| && k != fallback.offset ==> asm.code[k] == old(asm.code)[k]
  {
    hide JumpsTo, Size, Offset, SameButDisp, SameSizes;
    ghost var before, q := asm.code, |asm.code|;
    done := asm.EmitJump(Jump(0), FRESH);
    ghost var jumped := asm.code;
    assert jumped[..q] == before && jumped[fallback.offset] == before[fallback.offset];
    StaysJump(Jump(0), jumped[q]);
    var _ := asm.Bind(fallback, Offset(asm.code, |asm.code|), |asm.code|);
    SizesCut(before, jumped, asm.code);
  }

  /** The fallback send, rebuilt from its arguments in source order; done is bound behind it. */
  method EmitFallback(asm: Assembler, i: Instr, done: Label)
    requires i.Send? && done.isResolved && !done.isBound && done.offset < |asm.code| && asm.code[done.offset].Jump?
    modifies asm
    ensures |asm.code| == |old(asm.code)| + 1 && JumpsTo(asm.code, done.offset, |asm.code|) &&
      asm.code[done.offset].Jump?
    ensures SameSizes(old(asm.code) + [i], asm.code, |asm.code|)
    ensures forall k {:trigger asm.code[k]} ::
      0 <= k < |asm.code| && k != done.offset ==> asm.code[k] == (old(asm.code) + [i])[k]
  {
    hide JumpsTo, Size, Offset, SameButDisp, SameSizes;
    var sourceArgs := Reverse(i.args);
    asm.Emit(Send(i.selector, i.receiver, Reverse(sourceArgs), i.store));
    ReverseTwice(i.args);
    ghost var sent := asm.code;
    var _ := asm.Bind(done, Offset(asm.code, |asm.code|), |asm.code|);
    StaysJump(sent[done.offset], asm.code[done.offset]);
  }

  lemma NoBody(env: Env, literals: seq<Value>, callee: Method, stores: bool)
    ensures Merge(Like(env), literals, BodyLiterals(callee, 0, stores)) == literals
  {}

  lemma BodyMerge(env: Env, literals: seq<Value>, callee: Method, i: nat, stores: bool)
    requires i < |callee.code|
    ensures Merge(Like(env), literals, BodyLiterals(callee, i + 1, stores)) ==
      Merge(Like(env), Merge(Like(env), literals, BodyLiterals(callee, i, stores)),
        InstrLiterals(callee, callee.code[i], stores))
  {
    hide Merge, InstrLiterals;
    MergeTwo(Like(env), literals, BodyLiterals(callee, i, stores), InstrLiterals(callee, callee.code[i], stores));
  }

  lemma NoSize()
    ensures OperandsSize([]) == 0
  {}

  lemma NoMerge(env: Env, literals: seq<Value>)
    ensures Merge(Like(env), literals, []) == literals
  {}

  /** The frame after a send's receiver, arguments and selector. */
  ghost function SendMerged(env: Env, literals: seq<Value>, callee: Method, i: Instr): seq<Value>
    requires i.Send?
  {
    Merge(Like(env), Merge(Like(env), Merge(Like(env), literals, OperandLiterals(callee, i.receiver)),
      OperandsLiterals(callee, i.args)), [LiteralAt(callee, i.selector)])
  }

  lemma SendMerge(env: Env, literals: seq<Value>, callee: Method, i: Instr)
    requires i.Send?
    ensures var c := SendMerged(env, literals, callee, i);
      Merge(Like(env), literals, InstrLiterals(callee, i, true)) ==
      if i.store.Some? then Merge(Like(env), c, OperandLiterals(callee, i.store.value)) else c
  {
    hide Merge, OperandLiterals, OperandsLiterals;
    var like := Like(env);
    var r, args, sel := OperandLiterals(callee, i.receiver), OperandsLiterals(callee, i.args),
      [LiteralAt(callee, i.selector)];
    var st := if i.store.Some? then OperandLiterals(callee, i.store.value) else [];
    MergeTwo(like, literals, r, args);
    MergeTwo(like, literals, r + args, sel);
    MergeTwo(like, literals, r + args + sel, st);
    assert r + args + sel + [] == r + args + sel;
  }

  function Larger(a: nat, b: nat): nat
  {
    if b > a then b else a
  }

  predicate Guardable(op: Operand)
  {
    op.Temp? || op.Arg? || op.ContextVar? || op.InstVar? || op.Assoc?
  }

  predicate Copyable(op: Operand)
  {
    op.Temp? || op.ContextVar? || op.InstVar? || op.Assoc?
  }

  ghost predicate Inlinable(env: Env, m: Method, literals: nat, i: Instr, cell: Cell)
    requires i.Send? && i.selector < |m.literals|
  {
    && Guardable(i.receiver) && (i.store.Some? ==> Copyable(i.store.value)) && cell.Mono?
    && env.lookup(cell.class_, m.literals[i.selector]).Some?
    && CalleeFits(env, m, literals, i, cell.class_, env.lookup(cell.class_, m.literals[i.selector]).value)
  }

  ghost predicate CalleeFits(env: Env, m: Method, literals: nat, i: Instr, class_: Value, callee: Method)
    requires i.Send?
  {
    && callee.argsSize == |i.args| && Accepted(env.inlineMax, env.slotBase(class_), callee)
    && literals + Offset(callee.code, |callee.code|) / 2 + 1 <= OPT_MAX_LITERALS
    && m.argsSize + m.tempsSize + 1 + |i.args| + callee.tempsSize <= OPT_MAX_TEMPS
  }

  /** The receiver's shape decides nothing but where variables lie. */
  lemma Relaid(env: Env, m: Method, slotBase: nat)
    ensures Compiled(m.(slotBase := slotBase)) <==> Compiled(m)
    ensures Accepted(env.inlineMax, slotBase, m.(slotBase := slotBase)) <==> Accepted(env.inlineMax, slotBase, m)
  {
    var laid := m.(slotBase := slotBase);
    forall op: Operand ensures InRange(laid, op) <==> InRange(m, op) {}
    forall i: Instr ensures InstrInRange(laid, i) <==> InstrInRange(m, i) {}
  }

  /** The site guards the cell's class and holds what that class looks up, its variables placed
      as in that class. */
  ghost predicate SiteChosen(env: Env, m: Method, i: Instr, cell: Cell, s: Site)
    requires i.Send? && i.selector < |m.literals|
  {
    && cell.Mono? && s.class_ == cell.class_ && s.slotBase == env.slotBase(cell.class_)
    && env.lookup(cell.class_, m.literals[i.selector]).Some?
    && s.callee == env.lookup(cell.class_, m.literals[i.selector]).value.(slotBase := s.slotBase)
  }

  predicate IsDynamic(env: Env, m: Method, i: Instr)
    requires i.Send? && i.selector < |m.literals|
  {
    && (i.receiver.Temp? || i.receiver.Arg? || i.receiver.ContextVar? || i.receiver.InstVar? || i.receiver.InstVarOf? ||
      i.receiver.Assoc?)
    && !env.isIdentity(m.literals[i.selector], |i.args|)
  }

  ghost predicate DynamicAt(env: Env, m: Method, k: nat)
  {
    k < |m.code| && m.code[k].Send? && m.code[k].selector < |m.literals| && IsDynamic(env, m, m.code[k])
  }

  /** How many dynamic sends come before instruction k: the number of k's cell. */
  ghost function DynamicBefore(env: Env, m: Method, k: nat): nat
  {
    if k == 0 then 0 else DynamicBefore(env, m, k - 1) + if DynamicAt(env, m, k - 1) then 1 else 0
  }

  ghost predicate HasCell(env: Env, m: Method, cells: seq<Cell>, k: nat)
  {
    DynamicAt(env, m, k) && DynamicBefore(env, m, k) < |cells|
  }

  ghost predicate IsMarked(env: Env, m: Method, cells: seq<Cell>, start: seq<nat>, k: nat, p: nat)
  {
    exists j: nat {:trigger start[j]} :: j < k && j < |start| && start[j] == p && HasCell(env, m, cells, j)
  }

  /** The site map holds the number of a send's cell exactly at the copy of that send, the
      guard marker exactly at inlined guards, and nothing else. */
  ghost predicate Marks(env: Env, m: Method, cells: seq<Cell>, start: seq<nat>, sites: map<nat, Site>, siteMap: map<nat,
      Mark>, k: nat)
  {
    && k <= |start|
    && (forall j: nat {:trigger start[j]} :: j < k && HasCell(env, m, cells, j) ==>
          start[j] in siteMap && siteMap[start[j]] == if j in sites then SpecGuard
            else CellOf(DynamicBefore(env, m, j)))
    && (forall p {:trigger p in siteMap} :: p in siteMap ==> IsMarked(env, m, cells, start, k, p))
  }

  /** Every inlined site guards the class its own cell saw, and holds what that class looks
      up; the inline area has room for it. */
  ghost predicate Chosen(env: Env, m: Method, cells: seq<Cell>, sites: map<nat, Site>, area: nat)
  {
    forall j {:trigger sites[j]} :: j in sites ==>
      && InlinableAt(env, m, cells, j) && SiteChosen(env, m, m.code[j], cells[DynamicBefore(env, m, j)], sites[j])
      && 1 + sites[j].callee.argsSize + sites[j].callee.tempsSize <= area
  }

  ghost predicate InlinableAt(env: Env, m: Method, cells: seq<Cell>, k: nat)
  {
    && HasCell(env, m, cells, k) && |m.code[k].args| <= OPT_MAX_ARGS
    && Inlinable(env, m, |m.literals|, m.code[k], cells[DynamicBefore(env, m, k)])
  }

  ghost predicate NoneInlinable(env: Env, m: Method, cells: seq<Cell>, k: nat)
  {
    forall j: nat {:trigger InlinableAt(env, m, cells, j)} :: j < k ==> !InlinableAt(env, m, cells, j)
  }

  // ----- which sites are inlined -----

  /** What an inlined site merges into the frame: its class, then what its body mentions. */
  ghost function SiteLiterals(class_: Value, callee: Method, i: Instr): seq<Value>
    requires i.Send?
  {
    [class_] + BodyLiterals(callee, |callee.code|, i.store.Some?)
  }

  /** Send k is inlined into a frame of that many literals. */
  ghost predicate Inlines(env: Env, m: Method, cells: seq<Cell>, k: nat, literals: nat)
  {
    && HasCell(env, m, cells, k) && |m.code[k].args| <= OPT_MAX_ARGS
    && Inlinable(env, m, literals, m.code[k], cells[DynamicBefore(env, m, k)])
  }

  /** The frame when the walk comes to instruction k. */
  ghost function FrameAt(env: Env, m: Method, cells: seq<Cell>, k: nat): seq<Value>
  {
    if k == 0 then m.literals
    else
      var literals := FrameAt(env, m, cells, k - 1);
      if Inlines(env, m, cells, k - 1, |literals|) then
        Merge(Like(env), literals, MergedAt(env, m, cells, k - 1))
      else literals
  }

  /** What inlining send k merges. */
  ghost function MergedAt(env: Env, m: Method, cells: seq<Cell>, k: nat): seq<Value>
  {
    if HasCell(env, m, cells, k) && cells[DynamicBefore(env, m, k)].Mono? then
      var class_ := cells[DynamicBefore(env, m, k)].class_;
      var found := env.lookup(class_, m.literals[m.code[k].selector]);
      if found.Some? then SiteLiterals(class_, found.value, m.code[k]) else []
    else []
  }

  /** The walk inlines send k: its feedback, its operands, its callee and the budgets at that
      point allow it. */
  ghost predicate InlinedAt(env: Env, m: Method, cells: seq<Cell>, k: nat)
  {
    Inlines(env, m, cells, k, |FrameAt(env, m, cells, k)|)
  }

  /** The room in the inline area that the sends inlined before k need. */
  ghost function AreaAt(env: Env, m: Method, cells: seq<Cell>, k: nat): nat
  {
    if k == 0 then 0
    else if InlinedAt(env, m, cells, k - 1) then
      Larger(AreaAt(env, m, cells, k - 1), SiteArea(env, m, cells, k - 1))
    else AreaAt(env, m, cells, k - 1)
  }

  ghost function SiteArea(env: Env, m: Method, cells: seq<Cell>, k: nat): nat
  {
    if HasCell(env, m, cells, k) && cells[DynamicBefore(env, m, k)].Mono? then
      var found := env.lookup(cells[DynamicBefore(env, m, k)].class_, m.literals[m.code[k].selector]);
      if found.Some? then 1 + |m.code[k].args| + found.value.tempsSize else 0
    else 0
  }

  /** Exactly the sends that the walk inlines are sites, with the frame and the area they need. */
  ghost predicate Exactly(env: Env, cells: seq<Cell>, x: Rewrite, area: nat, k: nat)
  {
    && (forall j: nat {:trigger j in x.sites} :: j in x.sites <==> j < k && InlinedAt(env, x.orig, cells, j))
    && x.new_.literals == FrameAt(env, x.orig, cells, k) && area == AreaAt(env, x.orig, cells, k)
  }

  lemma ExactlyInlined(env: Env, cells: seq<Cell>, x: Rewrite, y: Rewrite, area: nat, k: nat, s: Site)
    requires Exactly(env, cells, x, area, k) && y.orig == x.orig && y.sites == x.sites[k := s]
    requires Inlines(env, x.orig, cells, k, |x.new_.literals|)
    requires SiteChosen(env, x.orig, x.orig.code[k], cells[DynamicBefore(env, x.orig, k)], s)
    requires y.new_.literals == Merge(Like(env), x.new_.literals, SiteLiterals(s.class_, s.callee, x.orig.code[k]))
    ensures Exactly(env, cells, y, Larger(area, 1 + s.callee.argsSize + s.callee.tempsSize), k + 1)
  {
    hide Merge, BodyLiterals, DynamicBefore, Accepted, Offset;
    var found := env.lookup(s.class_, x.orig.literals[x.orig.code[k].selector]).value;
    BodyRelaid(found, s.slotBase, |found.code|, x.orig.code[k].store.Some?);
    hide InlinedAt, Inlines;
  }

  lemma ExactlyCopied(env: Env, cells: seq<Cell>, x: Rewrite, y: Rewrite, area: nat, k: nat)
    requires Exactly(env, cells, x, area, k) && y.orig == x.orig && y.sites == x.sites
    requires !Inlines(env, x.orig, cells, k, |x.new_.literals|) && y.new_.literals == x.new_.literals
    ensures Exactly(env, cells, y, area, k + 1)
  {
    hide Merge, Inlines, MergedAt, SiteArea;
  }

  /** What the walk keeps besides the layout: the marks, the choice of sites, the budgets. */
  ghost predicate Books(env: Env, cells: seq<Cell>, x: Rewrite, area: nat, siteMap: map<nat, Mark>, inlinedSites: nat,
      k: nat)
  {
    && Marks(env, x.orig, cells, x.start, x.sites, siteMap, k)
    && Chosen(env, x.orig, cells, x.sites, area)
    && Exactly(env, cells, x, area, k)
    && (inlinedSites == 0 <==> x.sites == map[])
    && (x.sites == map[] ==> area == 0 && x.new_.literals == x.orig.literals && NoneInlinable(env, x.orig, cells, k))
    && (x.sites != map[] ==> x.orig.tempsSize + area <= OPT_MAX_TEMPS && |x.new_.literals| <= OPT_MAX_LITERALS)
  }

  lemma SendInlined(env: Env, cells: seq<Cell>, x: Rewrite, z: Rewrite, y: Rewrite, area: nat, area': nat,
      siteMap: map<nat, Mark>, siteMap': map<nat, Mark>,
                    inlinedSites: nat, k: nat, newOffsetAt: map<nat, nat>, relocs: seq<Reloc>, jumps: seq<nat>, s: Site)
    requires CallerInv(x, k, k + 1, newOffsetAt, relocs, jumps) && k < |x.orig.code| && x.orig.code[k].Send?
    requires Books(env, cells, x, area, siteMap, inlinedSites, k) && HasCell(env, x.orig, cells, k) &&
      |x.orig.code[k].args| <= OPT_MAX_ARGS
    requires Inlinable(env, x.orig, |x.new_.literals|, x.orig.code[k], cells[DynamicBefore(env, x.orig, k)])
    requires SiteChosen(env, x.orig, x.orig.code[k], cells[DynamicBefore(env, x.orig, k)], s)
    requires SiteCode(z, x.orig.code[k], |x.new_.code|, |y.new_.code|, s) && Follows(z, y) && z.new_.code == y.new_.code
    requires Follows(x, y) && y.start == x.start + [|y.new_.code|] && x.new_.code <= y.new_.code
    requires y.new_.slotBase == x.new_.slotBase && y.new_.superClass == x.new_.superClass && y.sites == x.sites[k := s]
    requires siteMap' == siteMap[|x.new_.code| := SpecGuard] && |y.new_.literals| <= OPT_MAX_LITERALS
    requires area' == Larger(area, 1 + s.callee.argsSize + s.callee.tempsSize)
    requires y.new_.literals == Merge(Like(env), x.new_.literals, SiteLiterals(s.class_, s.callee, x.orig.code[k]))
    ensures CallerInv(y, k + 1, k + 1, newOffsetAt, relocs, jumps) &&
      Books(env, cells, y, area', siteMap', inlinedSites + 1, k + 1)
  {
    hide CallerInv, SiteCode, DynamicBefore, Accepted, Offset, Marks, HasCell, Merge, SiteLiterals, Exactly;
    ExactlyInlined(env, cells, x, y, area, k, s);
    assert |x.orig.literals| <= |x.new_.literals| by { Listed(x, k, newOffsetAt, relocs, jumps); }
    assert InlinableAt(env, x.orig, cells, k);
    MarksBelow(env, x.orig, cells, x, siteMap, k, newOffsetAt, relocs, jumps);
    SendPlaced(x, y, x.orig.code[k], k, newOffsetAt, relocs, jumps, true, s);
    MarksMore(env, x.orig, cells, x.start, y.start, x.sites, y.sites, siteMap, siteMap', k, |x.new_.code|);
    assert k in y.sites;
  }

  lemma SendCopied(env: Env, cells: seq<Cell>, x: Rewrite, y: Rewrite, area: nat, siteMap: map<nat, Mark>,
      siteMap': map<nat, Mark>,
                   inlinedSites: nat, k: nat, newOffsetAt: map<nat, nat>, relocs: seq<Reloc>, jumps: seq<nat>)
    requires CallerInv(x, k, k + 1, newOffsetAt, relocs, jumps) && k < |x.orig.code| && !IsJump(x.orig.code[k])
    requires Books(env, cells, x, area, siteMap, inlinedSites, k)
    requires !Inlines(env, x.orig, cells, k, |x.new_.literals|)
    requires Follows(x, y) && y.start == x.start + [|y.new_.code|] && y.new_.code == x.new_.code + [x.orig.code[k]]
    requires y.new_.slotBase == x.new_.slotBase && y.new_.superClass == x.new_.superClass && y.sites == x.sites &&
      y.new_.literals == x.new_.literals
    requires siteMap' == if HasCell(env, x.orig, cells, k)
      then siteMap[|x.new_.code| := CellOf(DynamicBefore(env, x.orig, k))] else siteMap
    ensures CallerInv(y, k + 1, k + 1, newOffsetAt, relocs, jumps) &&
      Books(env, cells, y, area, siteMap', inlinedSites, k + 1)
  {
    hide CallerInv, DynamicBefore, Accepted, Offset, Marks, HasCell, Inlinable, Exactly;
    ExactlyCopied(env, cells, x, y, area, k);
    MarksBelow(env, x.orig, cells, x, siteMap, k, newOffsetAt, relocs, jumps);
    SendPlaced(x, y, x.orig.code[k], k, newOffsetAt, relocs, jumps, false, Site(NIL, 0, x.orig, 0, []));
    MarksMore(env, x.orig, cells, x.start, y.start, x.sites, y.sites, siteMap, siteMap', k, |x.new_.code|);
  }

  lemma JumpCopied(env: Env, cells: seq<Cell>, x: Rewrite, y: Rewrite, area: nat, siteMap: map<nat, Mark>,
      inlinedSites: nat,
                   k: nat, newOffsetAt: map<nat, nat>, relocs: seq<Reloc>, relocs': seq<Reloc>, jumps: seq<nat>)
    requires CallerInv(x, k, k + 1, newOffsetAt, relocs, jumps) && k < |x.orig.code| && IsJump(x.orig.code[k])
    requires Books(env, cells, x, area, siteMap, inlinedSites, k)
    requires Follows(x, y) && y.start == x.start + [|y.new_.code|] && |y.new_.code| == |x.new_.code| + 1 &&
      x.new_.code <= y.new_.code
    requires SameButDisp(x.orig.code[k], y.new_.code[|x.new_.code|])
    requires y.new_.slotBase == x.new_.slotBase && y.new_.superClass == x.new_.superClass && y.sites == x.sites &&
      y.new_.literals == x.new_.literals
    requires Tracked(x.orig.code, x.start, k + 1, y.new_.code, relocs', jumps + [k])
    ensures CallerInv(y, k + 1, k + 1, newOffsetAt, relocs', jumps + [k]) &&
      Books(env, cells, y, area, siteMap, inlinedSites, k + 1)
  {
    hide CallerInv, DynamicBefore, Accepted, Offset, Marks, InlinableAt, Tracked, Exactly, Inlines;
    MarksBelow(env, x.orig, cells, x, siteMap, k, newOffsetAt, relocs, jumps);
    assert Placed(y, k);
    Listed(x, k, newOffsetAt, relocs, jumps);
    MoreListed(x.orig.code, k, jumps);
    CallerNext(x, y, k, newOffsetAt, relocs, relocs', jumps, jumps + [k]);
    MarksMore(env, x.orig, cells, x.start, y.start, x.sites, y.sites, siteMap, siteMap, k, |x.new_.code|);
    NotASend(env, x.orig, cells, k, |x.new_.literals|);
    ExactlyCopied(env, cells, x, y, area, k);
  }

  lemma NotASend(env: Env, m: Method, cells: seq<Cell>, k: nat, literals: nat)
    requires k < |m.code| && !m.code[k].Send?
    ensures !InlinableAt(env, m, cells, k) && !Inlines(env, m, cells, k, literals)
  {}

  lemma Listed(x: Rewrite, k: nat, newOffsetAt: map<nat, nat>, relocs: seq<Reloc>, jumps: seq<nat>)
    requires CallerInv(x, k, k + 1, newOffsetAt, relocs, jumps)
    ensures JumpsListed(x.orig.code, k, jumps)
    ensures forall j {:trigger j in x.sites} :: j in x.sites ==> j < k
    ensures x.orig.literals <= x.new_.literals
  {}

  lemma Ended(x: Rewrite, k: nat, newOffsetAt: map<nat, nat>, relocs: seq<Reloc>, jumps: seq<nat>)
    requires CallerInv(x, k, k, newOffsetAt, relocs, jumps)
    ensures |x.start| == k + 1 && x.start[k] == |x.new_.code| &&
      Tracked(x.orig.code, x.start, k, x.new_.code, relocs, jumps)
  {}

  lemma BooksKept(env: Env, cells: seq<Cell>, x: Rewrite, y: Rewrite, area: nat, siteMap: map<nat, Mark>,
      inlinedSites: nat, k: nat)
    requires Books(env, cells, x, area, siteMap, inlinedSites, k)
    requires y.orig == x.orig && y.start == x.start && y.sites == x.sites && y.new_.literals == x.new_.literals
    ensures Books(env, cells, y, area, siteMap, inlinedSites, k)
  {}

  lemma Started(env: Env, cells: seq<Cell>, x: Rewrite)
    requires x.start == [0] && x.sites == map[] && x.new_.code == [] && x.new_.literals == x.orig.literals
    requires x.new_.slotBase == x.orig.slotBase && x.new_.superClass == x.orig.superClass
    ensures CallerInv(x, 0, 0, map[], [], []) && Books(env, cells, x, 0, map[], 0, 0)
  {}

  lemma NothingFits(env: Env, m: Method, cells: seq<Cell>)
    requires env.inlineMax == 0
    ensures NoneInlinable(env, m, cells, |m.code|)
  {
    hide DynamicBefore;
  }

  lemma Decided(env: Env, cells: seq<Cell>, x: Rewrite, area: nat, siteMap: map<nat, Mark>, inlinedSites: nat, k: nat)
    requires Books(env, cells, x, area, siteMap, inlinedSites, k) && k == |x.orig.code|
    ensures Marks(env, x.orig, cells, x.start, x.sites, siteMap, k) && Chosen(env, x.orig, cells, x.sites, area)
    ensures Exactly(env, cells, x, area, k)
    ensures inlinedSites == 0 <==> NoneInlinable(env, x.orig, cells, k)
    ensures inlinedSites > 0 ==> x.orig.tempsSize + area <= OPT_MAX_TEMPS && |x.new_.literals| <= OPT_MAX_LITERALS
  {
    hide DynamicBefore, Marks, Inlinable, SiteChosen;
    if inlinedSites > 0 {
      var j :| j in x.sites;
      var _ := x.sites[j];
      assert InlinableAt(env, x.orig, cells, j);
    }
  }

  lemma MarksBelow(env: Env, m: Method, cells: seq<Cell>, x: Rewrite, siteMap: map<nat, Mark>, k: nat,
      newOffsetAt: map<nat, nat>, relocs: seq<Reloc>, jumps: seq<nat>)
    requires CallerInv(x, k, k + 1, newOffsetAt, relocs, jumps) && k < |x.orig.code| && x.orig == m
    requires Marks(env, m, cells, x.start, x.sites, siteMap, k)
    ensures |x.new_.code| !in siteMap && x.start[k] == |x.new_.code| && |x.start| == k + 1 && k !in x.sites
    ensures forall j {:trigger x.start[j]} :: 0 <= j < k ==> x.start[j] < |x.new_.code|
  {
    hide Placed, Offset, Tracked, OffsetsKept, DynamicBefore;
    forall j: nat | j < k ensures x.start[j] < x.start[k] { StartMono(x, k, j, k); }
  }

  lemma MarksMore(env: Env, m: Method, cells: seq<Cell>, start: seq<nat>, start': seq<nat>, sites: map<nat, Site>,
      sites': map<nat, Site>,
                  siteMap: map<nat, Mark>, siteMap': map<nat, Mark>, k: nat, p: nat)
    requires Marks(env, m, cells, start, sites, siteMap, k) && |start| == k + 1 && start[k] == p && start <= start'
    requires forall j {:trigger start[j]} :: 0 <= j < k ==> start[j] < p
    requires forall j {:trigger j in sites} {:trigger j in sites'} :: j < k ==> (j in sites <==> j in sites')
    requires siteMap' == if HasCell(env, m, cells, k)
      then siteMap[p := if k in sites' then SpecGuard else CellOf(DynamicBefore(env, m, k))] else siteMap
    ensures Marks(env, m, cells, start', sites', siteMap', k + 1)
  {
    hide HasCell, DynamicBefore;
    forall j: nat | j < k + 1 && HasCell(env, m, cells, j)
      ensures start'[j] in siteMap' && siteMap'[start'[j]] == if j in sites' then SpecGuard
        else CellOf(DynamicBefore(env, m, j))
    {
      assert start'[j] == start[j];
    }
    forall q | q in siteMap' ensures IsMarked(env, m, cells, start', k + 1, q) {
      if q in siteMap {
        assert IsMarked(env, m, cells, start, k, q);
        var j: nat :| j < k && j < |start| && start[j] == q && HasCell(env, m, cells, j);
        assert start'[j] == q;
      } else {
        assert start'[k] == p;
      }
    }
  }

  /** The send's code is in its place, inlined or copied. */
  lemma SendPlaced(x: Rewrite, y: Rewrite, i: Instr, k: nat, newOffsetAt: map<nat, nat>, relocs: seq<Reloc>,
      jumps: seq<nat>, done: bool, s: Site)
    requires CallerInv(x, k, k + 1, newOffsetAt, relocs, jumps) && k < |x.orig.code| && i == x.orig.code[k] &&
      !IsJump(i) && k !in x.sites
    requires Follows(x, y) && y.start == x.start + [|y.new_.code|] && x.new_.code <= y.new_.code
    requires y.new_.slotBase == x.new_.slotBase && y.new_.superClass == x.new_.superClass
    requires y.sites == if done then x.sites[k := s] else x.sites
    requires done ==> exists z: Rewrite ::
      SiteCode(z, i, |x.new_.code|, |y.new_.code|, s) && Follows(z, y) && z.new_.code == y.new_.code
    requires !done ==> y.new_.code == x.new_.code + [i]
    ensures CallerInv(y, k + 1, k + 1, newOffsetAt, relocs, jumps)
  {
    hide SiteCode, Offset, Tracked, OffsetsKept, PlacedBelow;
    if done {
      var z: Rewrite :| SiteCode(z, i, |x.new_.code|, |y.new_.code|, s) && Follows(z, y) && z.new_.code == y.new_.code;
      SiteKeeps(z, y, i, |x.new_.code|, |y.new_.code|, s);
    }
    assert Placed(y, k);
    TrackedAppend(x.orig.code, x.start, x.start, k + 1, x.new_.code, y.new_.code, relocs, jumps);
    MoreListed(x.orig.code, k, jumps);
    CallerNext(x, y, k, newOffsetAt, relocs, relocs, jumps, jumps);
  }

  lemma StaysJump(a: Instr, b: Instr)
    requires SameButDisp(a, b) && a.Jump?
    ensures b.Jump?
  {}

  lemma SiteKeeps(x: Rewrite, y: Rewrite, i: Instr, p: nat, end: nat, s: Site)
    requires SiteCode(x, i, p, end, s) && Follows(x, y) && x.new_.code == y.new_.code
    ensures SiteCode(y, i, p, end, s)
  {
    hide Body, JumpsTo;
    SiteStable(x, y, i, p, end, s);
  }

  /** The parts of a site in their final places. */
  lemma TailLaid(x: Rewrite, y: Rewrite, e: Rewrite, bound: Code, sent: Code, i: Instr, p: nat, q: nat, s: Site)
    requires Follows(x, y) && Follows(y, e) && x.new_.code <= y.new_.code && q == |y.new_.code|
    requires i.Send? && !i.receiver.Super? && |i.args| == s.callee.argsSize
    requires Body(y, s, i.store) && BodyEnd(s, i.store) == q && s.at[0] == p + 2 + |i.args| == |x.new_.code|
    requires Guard(x, s, p, i.receiver) && Spills(x, p + 1, i.receiver, i.args)
    requires |bound| == q + 1 && bound[q].Jump? && JumpsTo(bound, p, q + 1) && SameButDisp(y.new_.code[p], bound[p])
    requires SameSizes(y.new_.code, bound, q)
    requires forall k {:trigger bound[k]} :: 0 <= k < q && k != p ==> bound[k] == y.new_.code[k]
    requires sent == bound + [i]
    requires |e.new_.code| == q + 2 && SameSizes(sent, e.new_.code, q + 2) && JumpsTo(e.new_.code, q, q + 2) &&
      e.new_.code[q].Jump?
    requires forall k {:trigger e.new_.code[k]} :: 0 <= k < q + 2 && k != q ==> e.new_.code[k] == sent[k]
    ensures SiteCode(e, i, p, q + 2, s)
  {
    hide BodyAt, CanFallThrough, SelfCopy, JumpsTo, Size, Offset, SameButDisp, BodyEnd;
    assert e.new_.code[p] == bound[p] && e.new_.code[q + 1] == i;
    JumpStable(bound, e.new_.code, q + 1, p, q + 1);
    assert Frozen(y.new_.code, e.new_.code, s.at[0], q) by {
      forall k | 0 <= k < q ensures SameButDisp(y.new_.code[k], e.new_.code[k]) &&
        Size(y.new_.code[k]) == Size(e.new_.code[k]) {
        assert Size(y.new_.code[k]) == Size(bound[k]) && Size(sent[k]) == Size(e.new_.code[k]);
        if k != p { Same(y.new_.code[k], e.new_.code[k]); }
      }
    }
    BodyStable(y, e, s, i.store);
    SpillsStable(x, e, p + 1, i.receiver, i.args);
    StaysGuard(x.new_.code[p], e.new_.code[p]);
  }

  lemma SizesCut(a: Code, b: Code, c: Code)
    requires a <= b && SameSizes(b, c, |b|)
    ensures SameSizes(a, c, |a|)
  {}

  lemma Same(a: Instr, b: Instr)
    requires a == b
    ensures SameButDisp(a, b)
  {}

  lemma StaysGuard(a: Instr, b: Instr)
    requires SameButDisp(a, b) && a.JumpNotMemberOf?
    ensures b.JumpNotMemberOf? && b.class_ == a.class_ && b.operand == a.operand
  {}

  // ----- the inliner as a whole -----

  /** What the class looks up there, as the site holds it: the literals that stand for its own,
      its variables placed as in the class. */
  ghost function Installs(env: Env, literals: seq<Value>, class_: Value, m: Method): Method
  {
    Merged(Like(env), literals, m.(slotBase := env.slotBase(class_)))
  }

  ghost predicate Installed(env: Env, m: Method, cells: seq<Cell>, literals: seq<Value>, sites: map<nat, Site>,
      area: nat)
  {
    forall j {:trigger sites[j]} :: j in sites ==>
      && InlinableAt(env, m, cells, j) && 1 + sites[j].callee.argsSize + sites[j].callee.tempsSize <= area
      && Mono(sites[j].class_) == cells[DynamicBefore(env, m, j)]
      && sites[j].callee == Installs(env, literals, sites[j].class_,
        env.lookup(sites[j].class_, m.literals[m.code[j].selector]).value)
  }

  /** The layout with its merged callees. */
  lemma Finished(env: Env, cells: seq<Cell>, x: Rewrite, area: nat, siteMap: map<nat, Mark>, k: nat)
    requires Coherent(env) && Spliced(x) && x.like == Like(env) && Chosen(env, x.orig, cells, x.sites, area)
    requires Marks(env, x.orig, cells, x.start, x.sites, siteMap, k)
    ensures Expansion(Plainly(x)) && Installed(env, x.orig, cells, x.new_.literals, Plainly(x).sites, area)
    ensures Marks(env, x.orig, cells, x.start, Plainly(x).sites, siteMap, k)
  {
    hide Spliced, Expansion, Compiled, HasCell, DynamicBefore, CalleeFits, IsMarked;
    forall j | j in x.sites ensures Standing(x.like, x.new_.literals, x.sites[j].class_) == x.sites[j].class_ {
      ClassFound(env, x.orig, cells, x.sites, area, j);
      ClassStands(env, x.new_.literals, x.sites[j].class_);
    }
    PlainExpansion(x);
    forall j | j in Plainly(x).sites ensures Plainly(x).sites[j] == MergedSite(x, x.sites[j]) {}
  }

  lemma ClassFound(env: Env, m: Method, cells: seq<Cell>, sites: map<nat, Site>, area: nat, j: nat)
    requires Coherent(env) && Chosen(env, m, cells, sites, area) && j in sites
    ensures env.contents(sites[j].class_).None?
  {
    hide DynamicBefore, CalleeFits, Compiled;
    assert InlinableAt(env, m, cells, j);
    assert env.lookup(sites[j].class_, m.literals[m.code[j].selector]).Some?;
  }

  lemma ClassStands(env: Env, literals: seq<Value>, v: Value)
    requires env.contents(v).None?
    ensures Standing(Like(env), literals, v) == v
  {
    if i: nat :| FirstLike(Like(env), literals, i, v) {}
  }

  ghost predicate TempsWrittenFirst(m: Method)
  {
    exists written: seq<set<nat>> :: WritesBeforeReads(m, written)
  }

  /** The world dispatches as the image looks up. */
  ghost predicate Serves(w: World, env: Env)
  {
    forall c: Value, sel: Value {:trigger env.lookup(c, sel)} ::
      env.lookup(c, sel).Some? && Accepted(env.inlineMax, env.slotBase(c), env.lookup(c, sel).value) ==>
        Dispatches(w, sel, c, env.lookup(c, sel).value)
  }

  /** Inlining m for receivers of the class changes nothing about it: no String of its own gives
      way to another of the same contents, its variables, if it names any, lie where its own class
      has them, and it writes its temporaries before it reads them. */
  ghost predicate Faithful(env: Env, literals: seq<Value>, class_: Value, m: Method)
  {
    && (forall i {:trigger m.literals[i]} ::
      0 <= i < |m.literals| ==> Standing(Like(env), literals, m.literals[i]) == m.literals[i])
    && (UsesVariables(m) ==> m.slotBase == env.slotBase(class_))
    && TempsWrittenFirst(m)
  }

  ghost predicate AllFaithful(env: Env, x: Rewrite)
  {
    forall k {:trigger x.sites[k]} :: k in x.sites && k < |x.orig.code| && x.orig.code[k].Send? ==>
      var found := env.lookup(x.sites[k].class_, LiteralAt(x.orig, x.orig.code[k].selector));
      found.Some? && Faithful(env, x.new_.literals, x.sites[k].class_, found.value)
  }

  lemma FaithfulSite(w: World, env: Env, literals: seq<Value>, selector: Value, class_: Value, m: Method)
    requires Dispatches(w, selector, class_, m) && Faithful(env, literals, class_, m)
    ensures Dispatches(w, selector, class_, Installs(env, literals, class_, m))
    ensures IgnoresEntryTemps(w, class_, Installs(env, literals, class_, m))
  {
    hide Dispatches, IgnoresEntryTemps, WritesBeforeReads, Standing;
    var laid := m.(slotBase := env.slotBase(class_));
    var r := Installs(env, literals, class_, m);
    forall i | 0 <= i < |m.literals| ensures r.literals[i] == m.literals[i] {}
    assert r.literals == m.literals;
    assert r == laid;
    DispatchesRelaid(w, selector, class_, m, env.slotBase(class_));
    var written: seq<set<nat>> :| WritesBeforeReads(m, written);
    WritesRelaid(m, env.slotBase(class_), written);
    WrittenFirstIgnoresEntry(w, class_, laid, written);
  }

  /** Whatever the cells saw and whichever sites were inlined, what OptimizeMethod answers
      means what it was given means, if every callee is faithful: the same answer, heap and
      trace, or neither comes back. */
  lemma OptimizedMeansTheSame(w: World, env: Env, m: Method, cells: seq<Cell>, x: Rewrite, area: nat, f: Frame, h: Heap,
      v: Value, outer: bool, h': Heap)
    requires Serves(w, env) && Expansion(x) && x.orig == m &&
      Installed(env, m, cells, x.new_.literals, x.sites, area) && AllFaithful(env, x)
    ensures Answers(w, m, Running(0, f, h), v, outer, h') <==> Answers(w, x.new_, Running(0, f, h), v, outer, h')
  {
    hide Expansion, Answers, Accepted, DynamicBefore, Dispatches, IgnoresEntryTemps, Faithful, Installs;
    forall k | k in x.sites && k < |x.orig.code| && x.orig.code[k].Send?
      ensures Dispatches(w, LiteralAt(x.orig, x.orig.code[k].selector), x.sites[k].class_, x.sites[k].callee) &&
        IgnoresEntryTemps(w, x.sites[k].class_, x.sites[k].callee)
    {
      var s := x.sites[k];
      assert InlinableAt(env, m, cells, k);
      var selector := LiteralAt(x.orig, x.orig.code[k].selector);
      FaithfulSite(w, env, x.new_.literals, selector, s.class_, env.lookup(s.class_, selector).value);
    }
    InliningPreservesMeaning(w, x, f, h, v, outer, h');
  }
}
