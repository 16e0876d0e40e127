/** What the inliner keeps while it emits: the images laid out so far, the relocation tables,
    and how both survive growth and patching of the output. */
module InlineLayout {
  import opened Options
  import opened BytecodeMachine
  import opened InlineMeaning
  import opened InlineTheorem
  import opened InlineEligibility
  import opened Relocation

  /** An inline-cache cell of the old code. */
  datatype Cell = Mono(class_: Value) | NotMono

  datatype Mark = SpecGuard | CellOf(index: nat)

  /** The parts of the image the inliner consults. contents is what a String holds. */
  datatype Env = Env(
    contents: Value -> Option<string>,
    lookup: (Value, Value) -> Option<Method>,
    slotBase: Value -> nat,
    isIdentity: (Value, nat) -> bool,
    inlineMax: nat)

  /** compareValues: the same object, or two Strings of equal contents. */
  function Like(env: Env): (Value, Value) -> bool
  {
    (v, u) => v == u || (env.contents(v).Some? && env.contents(u) == env.contents(v))
  }

  /** Lookup starts at classes, which are no Strings, and answers compiled methods. */
  ghost predicate Coherent(env: Env)
  {
    forall c, sel {:trigger env.lookup(c, sel)} :: env.lookup(c, sel).Some? ==>
      Compiled(env.lookup(c, sel).value) && env.contents(c).None?
  }

  // ----- the output may grow and have displacements patched -----

  ghost predicate Follows(x: Rewrite, y: Rewrite)
  {
    y.orig == x.orig && y.base == x.base && x.new_.literals <= y.new_.literals && y.like == x.like
  }

  ghost predicate SameSite(s: Site, t: Site)
  {
    s.callee == t.callee && s.slotBase == t.slotBase && s.class_ == t.class_
  }

  lemma {:induction false} OneMore(ops: seq<Operand>, i: nat)
    requires i < |ops|
    ensures OperandsSize(ops[..i + 1]) == OperandsSize(ops[..i]) + OperandSize(ops[i])
    decreases i
  {
    if i > 0 {
      OneMore(ops[1..], i - 1);
      assert ops[..i + 1][1..] == ops[1..][..i] && ops[..i][1..] == ops[1..][..i - 1];
    } else {
      assert ops[..1] == [ops[0]];
    }
  }

  lemma AdjustedGrown(x: Rewrite, y: Rewrite, s: Site, t: Site, op: Operand, op': Operand)
    requires Adjusted(x, s, op, op') && Follows(x, y) && SameSite(s, t)
    ensures Adjusted(y, t, op, op')
  {}

  lemma ImageGrown(x: Rewrite, y: Rewrite, s: Site, t: Site, i: Instr, image: Instr, image': Instr)
    requires ImageOf(x, s, i, image) && Follows(x, y) && SameSite(s, t) && SameButDisp(image, image')
    ensures ImageOf(y, t, i, image')
  {
    hide Adjusted;
    match i
    case Copy(src, dst) =>
      AdjustedGrown(x, y, s, t, src, image.source);
      AdjustedGrown(x, y, s, t, dst, image.dest);
    case Send(_, r, args, st) =>
      AdjustedGrown(x, y, s, t, r, image.receiver);
      forall k | 0 <= k < |args| ensures Adjusted(y, t, args[k], image.args[k])
        { AdjustedGrown(x, y, s, t, args[k], image.args[k]); }
      if st.Some? { AdjustedGrown(x, y, s, t, st.value, image.store.value); }
    case Jump(_) =>
    case JumpNotMemberOf(_, op, _) => AdjustedGrown(x, y, s, t, op, image.operand);
  }

  lemma ArgsGrown(x: Rewrite, y: Rewrite, s: Site, ops: seq<Operand>, ops': seq<Operand>)
    requires AdjustedAll(x, s, ops, ops') && Follows(x, y)
    ensures AdjustedAll(y, s, ops, ops')
  {
    hide Adjusted;
    forall k | 0 <= k < |ops| ensures Adjusted(y, s, ops[k], ops'[k]) { AdjustedGrown(x, y, s, s, ops[k], ops'[k]); }
  }

  /** a's first n instructions are b's, but for displacements. */
  ghost predicate Kept(a: Code, b: Code, n: nat)
  {
    n <= |a| && n <= |b| && forall i {:trigger a[i]} {:trigger b[i]} :: 0 <= i < n ==> SameButDisp(a[i], b[i])
  }

  lemma LaidGrown(x: Rewrite, y: Rewrite, s: Site, t: Site, store: Option<Operand>, i: nat)
    requires i < |s.callee.code| && i + 1 < |s.at| && Laid(x, s, store, i)
    requires Follows(x, y) && SameSite(s, t) && i + 1 < |t.at| && t.at[i] == s.at[i] && t.at[i + 1] == s.at[i + 1]
    requires Kept(x.new_.code, y.new_.code, s.at[i + 1])
    ensures Laid(y, t, store, i)
  {
    hide Adjusted, ImageOf, CanFallThrough;
    if s.callee.code[i].Return? {
      if store.Some? { AdjustedGrown(x, y, s, t, s.callee.code[i].operand, x.new_.code[s.at[i]].source); }
    } else {
      ImageGrown(x, y, s, t, s.callee.code[i], x.new_.code[s.at[i]], y.new_.code[s.at[i]]);
    }
  }

  lemma KeptLess(a: Code, b: Code, n: nat, k: nat)
    requires Kept(a, b, n) && k <= n
    ensures Kept(a, b, k)
  {}

  ghost predicate LaidBelow(x: Rewrite, s: Site, store: Option<Operand>, i: nat)
    requires i <= |s.callee.code| && i < |s.at|
  {
    forall j: nat {:trigger Laid(x, s, store, j)} {:trigger s.at[j]} :: j < i ==> Laid(x, s, store, j)
  }

  lemma LaidLimit(x: Rewrite, s: Site, store: Option<Operand>, i: nat)
    requires i < |s.callee.code| && i + 1 < |s.at| && Laid(x, s, store, i)
    ensures s.at[i] <= s.at[i + 1] <= |x.new_.code|
  {
    hide ImageOf, CopiesInto, OperandEligible;
  }

  lemma AllLaidGrown(x: Rewrite, y: Rewrite, s: Site, t: Site, store: Option<Operand>, i: nat)
    requires i <= |s.callee.code| && i < |s.at| && LaidBelow(x, s, store, i)
    requires Follows(x, y) && SameSite(s, t) && s.at <= t.at
    requires Kept(x.new_.code, y.new_.code, |x.new_.code|)
    ensures LaidBelow(y, t, store, i)
  {
    hide Laid, Kept, Follows;
    forall j: nat | j < i ensures Laid(y, t, store, j) {
      assert Laid(x, s, store, j);
      LaidLimit(x, s, store, j);
      KeptLess(x.new_.code, y.new_.code, |x.new_.code|, s.at[j + 1]);
      LaidGrown(x, y, s, t, store, j);
    }
  }

  /** Every return that must skip the rest of the body has a jump waiting for the body's end. */
  ghost predicate ExitsPending(s: Site, store: Option<Operand>, i: nat, exits: seq<Label>, exitOf: seq<nat>)
    requires i <= |s.callee.code| && i < |s.at|
  {
    && |exits| == |exitOf|
    && (forall r {:trigger exitOf[r]} {:trigger exits[r]} :: 0 <= r < |exits| ==>
          && exitOf[r] < i && s.callee.code[exitOf[r]].Return? && Exits(s, store, exitOf[r])
          && exits[r] == Label(false, true, s.at[exitOf[r]] + Copies(store)))
    && (forall r, q {:trigger exitOf[r], exitOf[q]} :: 0 <= r < q < |exitOf| ==> exitOf[r] < exitOf[q])
    && (forall j: nat {:trigger s.callee.code[j]} ::
      j < i && s.callee.code[j].Return? && Exits(s, store, j) ==> j in exitOf)
  }

  ghost predicate JumpsListed(code: Code, i: nat, jumps: seq<nat>)
    requires i <= |code|
  {
    forall j: nat {:trigger code[j]} :: j < i && IsJump(code[j]) ==> j in jumps
  }

  lemma TrackedAppend(src: Code, at: seq<nat>, at': seq<nat>, reached: nat, a: Code, b: Code, relocs: seq<Reloc>,
      jumps: seq<nat>)
    requires Tracked(src, at, reached, a, relocs, jumps) && at <= at' && a <= b
    ensures Tracked(src, at', reached, b, relocs, jumps)
  {
    hide JumpsTo, Target, Offset, Size;
    forall r | 0 <= r < |relocs| ensures TrackedJump(src, at', reached, b, relocs[r], jumps[r]) {
      assert TrackedJump(src, at, reached, a, relocs[r], jumps[r]);
      TrackedStable(src, at, reached, a, b, relocs[r], jumps[r]);
      TrackedMore(src, at, at', reached, b, relocs[r], jumps[r]);
    }
  }

  lemma TrackedMore(src: Code, at: seq<nat>, at': seq<nat>, reached: nat, b: Code, q: Reloc, j: nat)
    requires TrackedJump(src, at, reached, b, q, j) && at <= at'
    ensures TrackedJump(src, at', reached, b, q, j)
  {}

  /** The tables of one walk over a callee, and for the proof which callee jump or return
      each entry stands for. */
  datatype Walk = Walk(newOffsetAt: map<nat, nat>, relocs: seq<Reloc>, exits: seq<Label>)
  datatype Track = Track(jumps: seq<nat>, exitOf: seq<nat>)

  /** The first i callee instructions are laid out from index first on, and the tables know
      every jump among them; instructions below reached have been reached by the walk. */
  ghost predicate BodyInv(x: Rewrite, s: Site, store: Option<Operand>, i: nat, reached: nat, first: nat, w: Walk,
      g: Track)
  {
    && i <= reached <= |s.callee.code| + 1 && i <= |s.callee.code| && |s.at| == i + 1 && reached <= i + 1
    && s.at[0] == first && s.at[i] == |x.new_.code| && AllFrom(s.at, first)
    && LaidBelow(x, s, store, i)
    && Tracked(s.callee.code, s.at, reached, x.new_.code, w.relocs, g.jumps)
    && OffsetsKept(s.callee.code, s.at, reached, x.new_.code, w.newOffsetAt)
    && JumpsListed(s.callee.code, i, g.jumps)
    && ExitsPending(s, store, i, w.exits, g.exitOf)
  }

  ghost predicate CalleeOk(env: Env, s: Site)
  {
    && Coherent(env) && Compiled(s.callee) && Accepted(env.inlineMax, s.slotBase, s.callee)
    && s.callee.slotBase == s.slotBase
  }

  ghost predicate AllFrom(at: seq<nat>, first: nat)
  {
    forall i {:trigger at[i]} :: 0 <= i < |at| ==> first <= at[i]
  }

  lemma PrefixKept(a: Code, b: Code, at: seq<nat>, jumps: seq<nat>, first: nat)
    requires Retargeted(a, b, at, jumps) && AllFrom(at, first) && first <= |a|
    ensures a[..first] == b[..first]
  {
    hide SameSizes, SameButDisp;
    forall i | 0 <= i < first ensures a[i] == b[i] {
      assert !IsTracked(at, jumps, i);
    }
  }

  /** What emitting the image of instruction i adds to the layout. */
  lemma BodyInvNext(x: Rewrite, y: Rewrite, s: Site, t: Site, store: Option<Operand>, i: nat, first: nat, w: Walk,
      v: Walk, g: Track, h: Track)
    requires BodyInv(x, s, store, i, i + 1, first, w, g) && i < |s.callee.code|
    requires Follows(x, y) && SameSite(s, t) && t.at == s.at + [|y.new_.code|] && x.new_.code <= y.new_.code
    requires Laid(y, t, store, i)
    requires v.newOffsetAt == w.newOffsetAt
    requires Tracked(s.callee.code, s.at, i + 1, y.new_.code, v.relocs, h.jumps) &&
      JumpsListed(s.callee.code, i + 1, h.jumps)
    requires ExitsPending(t, store, i + 1, v.exits, h.exitOf)
    ensures BodyInv(y, t, store, i + 1, i + 1, first, v, h)
  {
    hide Laid, TrackedJump, Offset, ExitsPending;
    assert Kept(x.new_.code, y.new_.code, |x.new_.code|);
    AllLaidGrown(x, y, s, t, store, i);
    TrackedAppend(s.callee.code, s.at, t.at, i + 1, y.new_.code, y.new_.code, v.relocs, h.jumps);
    OffsetsStable(s.callee.code, s.at, i + 1, x.new_.code, y.new_.code, w.newOffsetAt);
    OffsetsMore(s.callee.code, s.at, t.at, i + 1, y.new_.code, w.newOffsetAt);
  }

  lemma OffsetsMore(src: Code, at: seq<nat>, at': seq<nat>, reached: nat, code: Code, newOffsetAt: map<nat, nat>)
    requires OffsetsKept(src, at, reached, code, newOffsetAt) && at <= at'
    ensures OffsetsKept(src, at', reached, code, newOffsetAt)
  {
    hide Offset;
    forall i: nat | i < reached ensures at'[i] == at[i] {}
  }

  lemma ExitsMore(s: Site, t: Site, store: Option<Operand>, i: nat, exits: seq<Label>, exitOf: seq<nat>)
    requires i < |s.callee.code| && i < |s.at| && ExitsPending(s, store, i, exits, exitOf)
    requires SameSite(s, t) && s.at <= t.at && i + 1 < |t.at|
    ensures !(s.callee.code[i].Return? && Exits(s, store, i)) ==> ExitsPending(t, store, i + 1, exits, exitOf)
    ensures s.callee.code[i].Return? && Exits(s, store, i) ==>
      ExitsPending(t, store, i + 1, exits + [Label(false, true, s.at[i] + Copies(store))], exitOf + [i])
  {
    hide CanFallThrough;
    if s.callee.code[i].Return? && Exits(s, store, i) {
      var more := exitOf + [i];
      assert more[|exitOf|] == i;
      forall j: nat | j < i + 1 && t.callee.code[j].Return? && Exits(t, store, j) ensures j in more {
        if j < i { assert j in exitOf; }
      }
    }
  }

  lemma MoreListed(code: Code, i: nat, jumps: seq<nat>)
    requires i < |code| && JumpsListed(code, i, jumps)
    ensures JumpsListed(code, i + 1, jumps + [i])
    ensures !IsJump(code[i]) ==> JumpsListed(code, i + 1, jumps)
  {
    assert (jumps + [i])[|jumps|] == i;
    forall j: nat | j < i && IsJump(code[j]) ensures j in jumps + [i] { assert j in jumps; }
  }

  lemma ReturnLaid(y: Rewrite, t: Site, store: Option<Operand>, i: nat, value: Operand)
    requires i < |t.callee.code| && i + 1 < |t.at| && t.callee.code[i].Return? &&
      OperandEligible(t.callee, t.callee.code[i].operand)
    requires t.at[i + 1] == t.at[i] + Copies(store) + (if Exits(t, store, i) then 1 else 0) <= |y.new_.code|
    requires store.Some? ==>
      y.new_.code[t.at[i]] == Copy(value, store.value) &&
      Adjusted(y, t, t.callee.code[i].operand, value)
    requires Exits(t, store, i) ==> y.new_.code[t.at[i] + Copies(store)].Jump?
    ensures Laid(y, t, store, i)
  {}

  lemma NotOuter(slotBase: nat, i: Instr)
    requires InstrAccepted(slotBase, i)
    ensures !i.OuterReturn?
  {}

  // ----- the end of the body -----

  lemma AtMono(x: Rewrite, s: Site, store: Option<Operand>, n: nat, i: nat, j: nat)
    requires n <= |s.callee.code| && n < |s.at| && LaidBelow(x, s, store, n) && i <= j <= n
    ensures s.at[i] <= s.at[j]
    decreases j
  {
    hide Laid;
    if i < j {
      AtMono(x, s, store, n, i, j - 1);
      assert Laid(x, s, store, j - 1);
      LaidLimit(x, s, store, j - 1);
    }
  }

  /** A jump of instruction i lies before the image of instruction i + 1. */
  lemma JumpInside(x: Rewrite, s: Site, store: Option<Operand>, i: nat)
    requires i < |s.callee.code| && i + 1 < |s.at| && Laid(x, s, store, i)
    ensures IsJump(s.callee.code[i]) ==> s.at[i] < s.at[i + 1]
    ensures s.callee.code[i].Return? && Exits(s, store, i) ==>
      s.at[i] + Copies(store) < s.at[i + 1] && x.new_.code[s.at[i] + Copies(store)].Jump?
  {
    hide ImageOf, CopiesInto, OperandEligible, CanFallThrough;
  }

  lemma ExitsOrdered(x: Rewrite, s: Site, store: Option<Operand>, exits: seq<Label>, exitOf: seq<nat>)
    requires |s.at| == |s.callee.code| + 1 && LaidBelow(x, s, store, |s.callee.code|)
    requires ExitsPending(s, store, |s.callee.code|, exits, exitOf)
    ensures Waiting(x.new_.code, exits)
  {
    hide Laid, CanFallThrough;
    forall r | 0 <= r < |exits| ensures exits[r].offset < |x.new_.code| && x.new_.code[exits[r].offset].Jump? {
      assert Laid(x, s, store, exitOf[r]);
      JumpInside(x, s, store, exitOf[r]);
      LaidLimit(x, s, store, exitOf[r]);
    }
    forall r, q | 0 <= r < q < |exits| ensures exits[r].offset < exits[q].offset {
      assert exitOf[r] < exitOf[q];
      assert Laid(x, s, store, exitOf[r]);
      JumpInside(x, s, store, exitOf[r]);
      AtMono(x, s, store, |s.callee.code|, exitOf[r] + 1, exitOf[q]);
    }
  }

  /** Labels whose jumps wait, in stream order. */
  ghost predicate Waiting(code: Code, exits: seq<Label>)
  {
    && (forall r {:trigger exits[r]} :: 0 <= r < |exits| ==>
          !exits[r].isBound && exits[r].isResolved && exits[r].offset < |code| && code[exits[r].offset].Jump?)
    && (forall r, q {:trigger exits[r], exits[q]} :: 0 <= r < q < |exits| ==> exits[r].offset < exits[q].offset)
  }

  ghost predicate IsExit(exits: seq<Label>, i: int)
  {
    exists r {:trigger exits[r]} :: 0 <= r < |exits| && exits[r].offset == i
  }

  /** bodyEnd: every explicit return lands here. */
  method BindExits(asm: Assembler, exits: seq<Label>)
    requires Waiting(asm.code, exits)
    modifies asm
    ensures SameSizes(old(asm.code), asm.code, |asm.code|) && |asm.code| == |old(asm.code)|
    ensures Kept(old(asm.code), asm.code, |asm.code|)
    ensures forall i {:trigger asm.code[i]} ::
      0 <= i < |asm.code| && !IsExit(exits, i) ==> asm.code[i] == old(asm.code)[i]
    ensures forall r {:trigger exits[r]} :: 0 <= r < |exits| ==> JumpsTo(asm.code, exits[r].offset, |asm.code|)
  {
    hide Offset, JumpsTo, Size, SameButDisp;
    assert forall i :: 0 <= i < |asm.code| ==> SameButDisp(asm.code[i], asm.code[i]) by { Itself(asm.code); }
    for r := 0 to |exits|
      invariant |asm.code| == |old(asm.code)| && SameSizes(old(asm.code), asm.code, |asm.code|)
      invariant Kept(old(asm.code), asm.code, |asm.code|)
      invariant forall i {:trigger asm.code[i]} ::
        0 <= i < |asm.code| && !IsExit(exits[..r], i) ==> asm.code[i] == old(asm.code)[i]
      invariant forall q {:trigger exits[q]} :: 0 <= q < r ==> JumpsTo(asm.code, exits[q].offset, |asm.code|)
    {
      hide Offset, JumpsTo, Size, SameButDisp;
      ghost var before := asm.code;
      assert !IsExit(exits[..r], exits[r].offset);
      assert before[exits[r].offset].Jump?;
      var _ := asm.Bind(exits[r], Offset(asm.code, |asm.code|), |asm.code|);
      forall q | 0 <= q < r ensures JumpsTo(asm.code, exits[q].offset, |asm.code|) {
        assert exits[q].offset < exits[r].offset;
        JumpStable(before, asm.code, |before|, exits[q].offset, |before|);
      }
      assert exits[..r + 1][r] == exits[r];
      forall i | 0 <= i < |asm.code| && !IsExit(exits[..r + 1], i) ensures asm.code[i] == old(asm.code)[i] {
        assert i != exits[..r + 1][r].offset;
        assert !IsExit(exits[..r], i) by
          { forall q | 0 <= q < r ensures exits[..r][q].offset != i { assert exits[..r + 1][q] == exits[..r][q]; } }
        assert asm.code[i] == before[i];
      }
      KeptOn(old(asm.code), before, asm.code, exits[r].offset);
    }
    assert exits[..|exits|] == exits;
  }

  lemma Itself(code: Code)
    ensures forall i :: 0 <= i < |code| ==> SameButDisp(code[i], code[i])
  {}

  lemma KeptOn(a: Code, b: Code, c: Code, at: nat)
    requires |a| == |b| == |c| && at < |a| && Kept(a, b, |a|) && SameButDisp(b[at], c[at]) && SameSizes(a, b, |a|) &&
      SameSizes(b, c, |b|)
    requires forall i {:trigger c[i]} :: 0 <= i < |b| && i != at ==> c[i] == b[i]
    ensures Kept(a, c, |a|) && SameSizes(a, c, |a|)
  {
    forall i | 0 <= i < |a| ensures SameButDisp(a[i], c[i]) && Size(a[i]) == Size(c[i])
      { assert SameButDisp(a[i], b[i]) && Size(a[i]) == Size(b[i]); }
  }

  /** Having bound the jumps that waited for instruction i. */
  lemma BodyInvReached(x: Rewrite, y: Rewrite, s: Site, store: Option<Operand>, i: nat, first: nat, w: Walk, v: Walk,
      g: Track)
    requires BodyInv(x, s, store, i, i, first, w, g)
    requires Follows(x, y) && Retargeted(x.new_.code, y.new_.code, s.at, g.jumps)
    requires Tracked(s.callee.code, s.at, i + 1, y.new_.code, v.relocs, g.jumps)
    requires v.newOffsetAt == w.newOffsetAt[Offset(s.callee.code, i) := Offset(x.new_.code, |x.new_.code|)] &&
      v.exits == w.exits
    ensures BodyInv(y, s, store, i, i + 1, first, v, g)
  {
    hide Laid, TrackedJump, ExitsPending, Size, Offset;
    AllLaidGrown(x, y, s, s, store, i);
    OffsetsStable(s.callee.code, s.at, i, x.new_.code, y.new_.code, w.newOffsetAt);
    SameOffsets(x.new_.code, y.new_.code, |x.new_.code|, |x.new_.code|);
    forall j: nat | j < i + 1 ensures Offset(s.callee.code, j) in v.newOffsetAt &&
      v.newOffsetAt[Offset(s.callee.code, j)] == Offset(y.new_.code, s.at[j]) {
      if j < i {
        OffsetMono(s.callee.code, j, i);
        assert s.at[j] <= |y.new_.code|;
      }
    }
  }

  lemma OffsetNext(code: Code, i: nat)
    requires i < |code|
    ensures Offset(code, i + 1) == Offset(code, i) + Size(code[i])
  {}

  lemma BodyInvStart(x: Rewrite, s: Site, store: Option<Operand>, first: nat)
    requires s.at == [first] && first == |x.new_.code|
    ensures BodyInv(x, s, store, 0, 0, first, Walk(map[], [], []), Track([], []))
  {}

  lemma LaidOn(x: Rewrite, y: Rewrite, s: Site, store: Option<Operand>)
    requires |s.at| == |s.callee.code| + 1 && LaidBelow(x, s, store, |s.callee.code|) && Follows(x, y) &&
      x.new_.code <= y.new_.code
    ensures LaidBelow(y, s, store, |s.callee.code|)
  {
    hide Laid;
    AllLaidGrown(x, y, s, s, store, |s.callee.code|);
  }

  lemma ExitsAfter(s: Site, store: Option<Operand>, first: nat, exits: seq<Label>, exitOf: seq<nat>)
    requires |s.at| == |s.callee.code| + 1 && ExitsPending(s, store, |s.callee.code|, exits, exitOf) &&
      AllFrom(s.at, first)
    ensures forall k :: k < first ==> !IsExit(exits, k)
  {}

  /** From the tables, all bound, to where every jump of the body lands. */
  lemma BodyComplete(env: Env, y: Rewrite, z: Rewrite, e: Rewrite, s: Site, store: Option<Operand>, first: nat, v: Walk,
      g: Track)
    requires CalleeOk(env, s) && BodyInv(y, s, store, |s.callee.code|, |s.callee.code| + 1, first, v, g)
    requires Follows(y, z) && Follows(z, e) && y.base >= 2
    requires z.new_.code == y.new_.code + (if SelfCopy(s, store) then [Copy(Temp(y.base), store.value)] else [])
    requires Waiting(z.new_.code, v.exits) && LaidBelow(z, s, store, |s.callee.code|)
    requires SameSizes(z.new_.code, e.new_.code, |z.new_.code|) && Kept(z.new_.code, e.new_.code, |z.new_.code|) &&
      |e.new_.code| == |z.new_.code|
    requires forall i {:trigger e.new_.code[i]} ::
      0 <= i < |z.new_.code| && !IsExit(v.exits, i) ==> e.new_.code[i] == z.new_.code[i]
    requires forall r {:trigger v.exits[r]} ::
      0 <= r < |v.exits| ==> JumpsTo(e.new_.code, v.exits[r].offset, |e.new_.code|)
    ensures Body(e, s, store) && BodyEnd(s, store) == |e.new_.code|
  {
    hide Laid, Accepted, Compiled, Coherent, CanFallThrough, JumpsTo, Offset, Tracked, OffsetsKept, Waiting,
      ExitsPending, SelfCopy, JumpsListed;
    var n := |s.callee.code|;
    assert s.callee.code != [] by { NotEmpty(env, s); }
    AllLaidGrown(z, e, s, s, store, n);
    forall i | 0 <= i < n ensures BodyAt(e, s, store, i) {
      assert Laid(e, s, store, i);
      if IsJump(s.callee.code[i]) {
        JumpLands(env, y, z, e, s, store, first, v, g, i);
      }
      if s.callee.code[i].Return? && Exits(s, store, i) {
        ExitLands(e, s, store, v.exits, g.exitOf, i);
      }
    }
    if SelfCopy(s, store) {
      assert !IsExit(v.exits, FallEnd(s)) by { ExitsBefore(z, s, store, v.exits, g.exitOf); }
    }
  }

  lemma NotEmpty(env: Env, s: Site)
    requires CalleeOk(env, s)
    ensures s.callee.code != []
  {}

  lemma ExitsBefore(z: Rewrite, s: Site, store: Option<Operand>, exits: seq<Label>, exitOf: seq<nat>)
    requires |s.at| == |s.callee.code| + 1 && LaidBelow(z, s, store, |s.callee.code|)
    requires ExitsPending(s, store, |s.callee.code|, exits, exitOf)
    ensures !IsExit(exits, FallEnd(s))
  {
    hide Laid, CanFallThrough;
    forall r | 0 <= r < |exits| ensures exits[r].offset < FallEnd(s) {
      assert Laid(z, s, store, exitOf[r]);
      JumpInside(z, s, store, exitOf[r]);
      AtMono(z, s, store, |s.callee.code|, exitOf[r] + 1, |s.callee.code|);
    }
  }

  lemma ExitLands(e: Rewrite, s: Site, store: Option<Operand>, exits: seq<Label>, exitOf: seq<nat>, i: nat)
    requires |s.at| == |s.callee.code| + 1 && ExitsPending(s, store, |s.callee.code|, exits, exitOf)
    requires forall r {:trigger exits[r]} :: 0 <= r < |exits| ==> JumpsTo(e.new_.code, exits[r].offset, |e.new_.code|)
    requires i < |s.callee.code| && s.callee.code[i].Return? && Exits(s, store, i)
    ensures JumpsTo(e.new_.code, s.at[i] + Copies(store), |e.new_.code|)
  {
    hide JumpsTo, CanFallThrough;
    assert i in exitOf;
    var r :| 0 <= r < |exitOf| && exitOf[r] == i;
    assert exits[r].offset == s.at[i] + Copies(store);
  }

  /** A relocated callee jump is no exit, so binding the exits leaves it alone. */
  lemma JumpApart(z: Rewrite, s: Site, store: Option<Operand>, exits: seq<Label>, exitOf: seq<nat>, i: nat)
    requires |s.at| == |s.callee.code| + 1 && LaidBelow(z, s, store, |s.callee.code|)
    requires ExitsPending(s, store, |s.callee.code|, exits, exitOf) && i < |s.callee.code| && IsJump(s.callee.code[i])
    ensures !IsExit(exits, s.at[i])
  {
    hide Laid, CanFallThrough;
    forall r | 0 <= r < |exits| ensures exits[r].offset != s.at[i] {
      var j := exitOf[r];
      assert Laid(z, s, store, j) && Laid(z, s, store, i);
      JumpInside(z, s, store, j);
      JumpInside(z, s, store, i);
      if i < j { AtMono(z, s, store, |s.callee.code|, i + 1, j); } else
        { AtMono(z, s, store, |s.callee.code|, j + 1, i); }
    }
  }

  lemma JumpLands(env: Env, y: Rewrite, z: Rewrite, e: Rewrite, s: Site, store: Option<Operand>, first: nat, v: Walk,
      g: Track, i: nat)
    requires BodyInv(y, s, store, |s.callee.code|, |s.callee.code| + 1, first, v, g)
    requires y.new_.code <= z.new_.code && LaidBelow(z, s, store, |s.callee.code|)
    requires SameSizes(z.new_.code, e.new_.code, |z.new_.code|) && |e.new_.code| == |z.new_.code|
    requires forall i {:trigger e.new_.code[i]} ::
      0 <= i < |z.new_.code| && !IsExit(v.exits, i) ==> e.new_.code[i] == z.new_.code[i]
    requires i < |s.callee.code| && IsJump(s.callee.code[i])
    ensures LandsAlike(e, s, i)
  {
    hide Laid, CanFallThrough, JumpsTo, Offset, OffsetsKept, Size;
    assert i in g.jumps;
    var r :| 0 <= r < |g.jumps| && g.jumps[r] == i;
    assert TrackedJump(s.callee.code, s.at, |s.callee.code| + 1, y.new_.code, v.relocs[r], i);
    var t := Target(s.callee.code, i).value;
    assert t <= |s.callee.code| by { assert JumpsTo(s.callee.code, i, t); InCode(s.callee.code, i, t); }
    assert s.at[t] <= |y.new_.code| by { InCode(y.new_.code, s.at[i], s.at[t]); }
    JumpApart(z, s, store, v.exits, g.exitOf, i);
    JumpStable(y.new_.code, e.new_.code, |y.new_.code|, s.at[i], s.at[t]);
  }

  lemma InCode(code: Code, j: nat, t: nat)
    requires JumpsTo(code, j, t)
    ensures t <= |code|
  {}

  lemma Usable(env: Env, s: Site, i: nat)
    requires CalleeOk(env, s) && i < |s.callee.code|
    ensures Coherent(env) && InstrInRange(s.callee, s.callee.code[i]) && InstrAccepted(s.slotBase, s.callee.code[i])
    ensures IsJump(s.callee.code[i]) ==> Target(s.callee.code, i).Some?
  {
    hide InstrInRange, InstrAccepted;
  }

  // ----- finished sites stay finished -----

  /** y's code from lo to hi is x's, and everything before hi has kept its size. */
  ghost predicate Frozen(a: Code, b: Code, lo: nat, hi: nat)
  {
    SameSizes(a, b, hi) && Kept(a, b, hi) && forall i {:trigger b[i]} :: lo <= i < hi ==> a[i] == b[i]
  }

  lemma BodyLaid(x: Rewrite, s: Site, store: Option<Operand>)
    requires Body(x, s, store)
    ensures LaidBelow(x, s, store, |s.callee.code|)
  {
    hide Laid, Lands;
    forall j: nat | j < |s.callee.code| ensures Laid(x, s, store, j) {
      var _ := s.callee.code[j];
      assert BodyAt(x, s, store, j);
    }
  }

  lemma BodyStable(x: Rewrite, y: Rewrite, s: Site, store: Option<Operand>)
    requires Body(x, s, store) && Follows(x, y) && Frozen(x.new_.code, y.new_.code, s.at[0], BodyEnd(s, store))
    ensures Body(y, s, store)
  {
    hide Laid, Lands, CanFallThrough, SelfCopy;
    BodyLaid(x, s, store);
    forall i | 0 <= i < |s.callee.code| ensures BodyAt(y, s, store, i) {
      var _ := s.callee.code[i];
      assert BodyAt(x, s, store, i);
      AtMono(x, s, store, |s.callee.code|, 0, i);
      AtMono(x, s, store, |s.callee.code|, i + 1, |s.callee.code|);
      KeptLess(x.new_.code, y.new_.code, BodyEnd(s, store), s.at[i + 1]);
      LaidGrown(x, y, s, s, store, i);
      LandsStable(x, y, s, store, i);
    }
    assert SelfCopy(s, store) ==> FallEnd(s) < BodyEnd(s, store);
    AtMono(x, s, store, |s.callee.code|, 0, |s.callee.code|);
  }

  lemma LandsStable(x: Rewrite, y: Rewrite, s: Site, store: Option<Operand>, i: nat)
    requires Body(x, s, store) && Frozen(x.new_.code, y.new_.code, s.at[0], BodyEnd(s, store)) &&
      LaidBelow(x, s, store, |s.callee.code|)
    requires i < |s.callee.code| && Laid(x, s, store, i) && Lands(x, s, store, i)
    ensures Lands(y, s, store, i)
  {
    hide Laid, CanFallThrough, JumpsTo, SelfCopy, Kept, Offset;
    JumpInside(x, s, store, i);
    AtMono(x, s, store, |s.callee.code|, 0, i);
    AtMono(x, s, store, |s.callee.code|, i + 1, |s.callee.code|);
    if IsJump(s.callee.code[i]) {
      var t := Target(s.callee.code, i).value;
      InCode(s.callee.code, i, t);
      AtMono(x, s, store, |s.callee.code|, t, |s.callee.code|);
      JumpStable(x.new_.code, y.new_.code, BodyEnd(s, store), s.at[i], s.at[t]);
    }
    if s.callee.code[i].Return? && Exits(s, store, i) {
      JumpStable(x.new_.code, y.new_.code, BodyEnd(s, store), s.at[i] + Copies(store), BodyEnd(s, store));
    }
  }

  lemma SpillsStable(x: Rewrite, y: Rewrite, p: nat, receiver: Operand, args: seq<Operand>)
    requires p + 1 + |args| <= |x.new_.code| && Spills(x, p, receiver, args) && y.base == x.base &&
      p + 1 + |args| <= |y.new_.code|
    requires forall i {:trigger y.new_.code[i]} :: p <= i < p + 1 + |args| ==> x.new_.code[i] == y.new_.code[i]
    ensures Spills(y, p, receiver, args)
  {
    forall a: nat | a < |args| ensures SpillsArg(y, p, args, a) { assert SpillsArg(x, p, args, a); }
  }

  lemma SiteStable(x: Rewrite, y: Rewrite, i: Instr, p: nat, end: nat, s: Site)
    requires SiteCode(x, i, p, end, s) && Follows(x, y) && Frozen(x.new_.code, y.new_.code, p, end)
    ensures SiteCode(y, i, p, end, s)
  {
    hide BodyAt, JumpsTo, CanFallThrough, SelfCopy, Size, SameButDisp;
    var q := BodyEnd(s, i.store);
    BodyStable(x, y, s, i.store);
    JumpStable(x.new_.code, y.new_.code, end, p, q + 1);
    JumpStable(x.new_.code, y.new_.code, end, q, end);
    SpillsStable(x, y, p + 1, i.receiver, i.args);
  }

  // ----- the walk over the caller -----

  ghost predicate Placed(x: Rewrite, j: nat)
    requires j < |x.orig.code| && j + 1 < |x.start|
  {
    if j in x.sites then SiteCode(x, x.orig.code[j], x.start[j], x.start[j + 1], x.sites[j])
    else RawCode(x, x.orig.code[j], x.start[j], x.start[j + 1])
  }

  ghost predicate PlacedBelow(x: Rewrite, k: nat)
    requires k <= |x.orig.code| && k < |x.start|
  {
    forall j: nat {:trigger Placed(x, j)} {:trigger x.start[j]} :: j < k ==> Placed(x, j)
  }

  ghost predicate CallerInv(x: Rewrite, k: nat, reached: nat, newOffsetAt: map<nat, nat>, relocs: seq<Reloc>,
      jumps: seq<nat>)
  {
    && k <= |x.orig.code| && |x.start| == k + 1 && k <= reached <= k + 1
    && x.start[0] == 0 && x.start[k] == |x.new_.code| && x.orig.literals <= x.new_.literals
    && x.new_.slotBase == x.orig.slotBase && x.new_.superClass == x.orig.superClass
    && (forall j {:trigger j in x.sites} :: j in x.sites ==> j < k)
    && PlacedBelow(x, k)
    && Tracked(x.orig.code, x.start, reached, x.new_.code, relocs, jumps)
    && OffsetsKept(x.orig.code, x.start, reached, x.new_.code, newOffsetAt)
    && JumpsListed(x.orig.code, k, jumps)
  }

  lemma PlacedLimit(x: Rewrite, j: nat)
    requires j < |x.orig.code| && j + 1 < |x.start| && Placed(x, j)
    ensures x.start[j] < x.start[j + 1] <= |x.new_.code|
    ensures j in x.sites ==> x.orig.code[j].Send?
  {
    hide Body, JumpsTo, CanFallThrough, BodyEnd;
  }

  lemma StartMono(x: Rewrite, k: nat, i: nat, j: nat)
    requires k <= |x.orig.code| && k < |x.start| && PlacedBelow(x, k) && i < j <= k
    ensures x.start[i] < x.start[j]
    decreases j
  {
    hide Placed;
    assert Placed(x, j - 1);
    PlacedLimit(x, j - 1);
    if i < j - 1 { StartMono(x, k, i, j - 1); }
  }

  /** y continues x: the same starts and sites, and more. */
  ghost predicate Continues(x: Rewrite, y: Rewrite, k: nat)
  {
    && Follows(x, y) && x.start <= y.start &&
      (forall j {:trigger j in x.sites} {:trigger j in y.sites} :: j < k ==> (j in x.sites <==> j in y.sites))
    && (forall j {:trigger x.sites[j]} :: j < k && j in x.sites && j in y.sites ==> x.sites[j] == y.sites[j])
  }

  lemma PlacedStable(x: Rewrite, y: Rewrite, k: nat, j: nat)
    requires j < k <= |x.orig.code| && k < |x.start| && Placed(x, j) && Continues(x, y, k)
    requires Kept(x.new_.code, y.new_.code, x.start[j + 1])
    requires j in x.sites ==> Frozen(x.new_.code, y.new_.code, x.start[j], x.start[j + 1])
    requires !IsJump(x.orig.code[j]) ==> x.new_.code[x.start[j]] == y.new_.code[x.start[j]]
    ensures Placed(y, j)
  {
    hide SiteCode, Kept, Frozen;
    if j in x.sites {
      SiteStable(x, y, x.orig.code[j], x.start[j], x.start[j + 1], x.sites[j]);
    } else {
      RawStable(x, y, x.orig.code[j], x.start[j], x.start[j + 1]);
    }
  }

  lemma RawStable(x: Rewrite, y: Rewrite, i: Instr, p: nat, end: nat)
    requires RawCode(x, i, p, end) && Kept(x.new_.code, y.new_.code, end)
    requires !IsJump(i) ==> x.new_.code[p] == y.new_.code[p]
    ensures RawCode(y, i, p, end)
  {}

  lemma PlacedAppend(x: Rewrite, y: Rewrite, k: nat)
    requires k <= |x.orig.code| && k < |x.start| && PlacedBelow(x, k) && Continues(x, y, k) &&
      x.new_.code <= y.new_.code
    ensures PlacedBelow(y, k)
  {
    hide Placed, Continues;
    Longer(x, y, k);
    forall j: nat | j < k ensures Placed(y, j) {
      assert Placed(x, j);
      PlacedLimit(x, j);
      assert Frozen(x.new_.code, y.new_.code, x.start[j], x.start[j + 1]);
      PlacedStable(x, y, k, j);
    }
  }

  lemma Longer(x: Rewrite, y: Rewrite, k: nat)
    requires Continues(x, y, k) && k < |x.start| && k <= |x.orig.code|
    ensures k < |y.start| && y.orig == x.orig
  {}

  lemma PlacedRetargeted(x: Rewrite, y: Rewrite, k: nat, jumps: seq<nat>)
    requires k <= |x.orig.code| && |x.start| == k + 1 && PlacedBelow(x, k) && Continues(x, y, k)
    requires Retargeted(x.new_.code, y.new_.code, x.start, jumps)
    requires forall r {:trigger jumps[r]} :: 0 <= r < |jumps| ==> jumps[r] < k && IsJump(x.orig.code[jumps[r]])
    ensures PlacedBelow(y, k)
  {
    hide Placed, Continues, SameButDisp, SameSizes;
    Longer(x, y, k);
    forall j: nat | j < k ensures Placed(y, j) {
      assert Placed(x, j);
      PlacedLimit(x, j);
      Untouched(x, y, k, jumps, j);
      PlacedStable(x, y, k, j);
    }
  }

  /** Only the raw jumps themselves are patched. */
  lemma Untouched(x: Rewrite, y: Rewrite, k: nat, jumps: seq<nat>, j: nat)
    requires k <= |x.orig.code| && |x.start| == k + 1 && PlacedBelow(x, k) && j < k &&
      x.start[j] < x.start[j + 1] <= |x.new_.code|
    requires Retargeted(x.new_.code, y.new_.code, x.start, jumps)
    requires forall r {:trigger jumps[r]} :: 0 <= r < |jumps| ==> jumps[r] < k && IsJump(x.orig.code[jumps[r]])
    ensures Kept(x.new_.code, y.new_.code, x.start[j + 1])
    ensures !IsJump(x.orig.code[j]) ==> Frozen(x.new_.code, y.new_.code, x.start[j], x.start[j + 1])
  {
    hide Placed, SameButDisp, Size;
    if !IsJump(x.orig.code[j]) {
      forall i | x.start[j] <= i < x.start[j + 1] ensures x.new_.code[i] == y.new_.code[i] {
        if IsTracked(x.start, jumps, i) {
          var r :| 0 <= r < |jumps| && jumps[r] < |x.start| && x.start[jumps[r]] == i;
          Apart(x, k, j, jumps[r], i);
        }
      }
    }
  }

  lemma Apart(x: Rewrite, k: nat, j: nat, q: nat, i: nat)
    requires k <= |x.orig.code| && k < |x.start| && PlacedBelow(x, k) && j < k && q < k && q != j
    requires x.start[j] <= i < x.start[j + 1]
    ensures x.start[q] != i
  {
    hide Placed;
    if q < j { StartMono(x, k, q, j); } else if q > j + 1 { StartMono(x, k, j + 1, q); }
  }

  lemma CallerReached(x: Rewrite, y: Rewrite, k: nat, newOffsetAt: map<nat, nat>, more: map<nat, nat>,
      relocs: seq<Reloc>, relocs': seq<Reloc>, jumps: seq<nat>)
    requires CallerInv(x, k, k, newOffsetAt, relocs, jumps)
    requires Follows(x, y) && y.start == x.start && y.sites == x.sites && y.new_ == x.new_.(code := y.new_.code)
    requires Retargeted(x.new_.code, y.new_.code, x.start, jumps)
    requires Tracked(x.orig.code, x.start, k + 1, y.new_.code, relocs', jumps)
    requires more == newOffsetAt[Offset(x.orig.code, k) := Offset(x.new_.code, |x.new_.code|)]
    ensures CallerInv(y, k, k + 1, more, relocs', jumps)
  {
    hide Placed, Offset, Size, SameButDisp, PlacedBelow;
    forall r | 0 <= r < |jumps| ensures jumps[r] < k && IsJump(x.orig.code[jumps[r]]) {
      assert TrackedJump(x.orig.code, x.start, k, x.new_.code, relocs[r], jumps[r]);
    }
    PlacedRetargeted(x, y, k, jumps);
    OffsetsStable(x.orig.code, x.start, k, x.new_.code, y.new_.code, newOffsetAt);
    SameOffsets(x.new_.code, y.new_.code, |x.new_.code|, |x.new_.code|);
    forall j: nat | j < k + 1 ensures Offset(x.orig.code, j) in more &&
      more[Offset(x.orig.code, j)] == Offset(y.new_.code, y.start[j]) {
      if j < k {
        OffsetMono(x.orig.code, j, k);
        assert x.start[j] <= |y.new_.code|;
      }
    }
  }

  lemma CallerNext(x: Rewrite, y: Rewrite, k: nat, newOffsetAt: map<nat, nat>, relocs: seq<Reloc>, relocs': seq<Reloc>,
      jumps: seq<nat>, jumps': seq<nat>)
    requires CallerInv(x, k, k + 1, newOffsetAt, relocs, jumps) && k < |x.orig.code|
    requires Continues(x, y, k) && y.start == x.start + [|y.new_.code|] && x.new_.code <= y.new_.code
    requires y.new_.slotBase == x.new_.slotBase && y.new_.superClass == x.new_.superClass
    requires forall j {:trigger j in y.sites} :: j in y.sites ==> j < k + 1
    requires Placed(y, k)
    requires Tracked(x.orig.code, x.start, k + 1, y.new_.code, relocs', jumps') &&
      JumpsListed(x.orig.code, k + 1, jumps')
    ensures CallerInv(y, k + 1, k + 1, newOffsetAt, relocs', jumps')
  {
    hide Placed, Offset, Size, TrackedJump;
    PlacedAppend(x, y, k);
    OffsetsStable(x.orig.code, x.start, k + 1, x.new_.code, y.new_.code, newOffsetAt);
    OffsetsMore(x.orig.code, x.start, y.start, k + 1, y.new_.code, newOffsetAt);
    TrackedAppend(x.orig.code, x.start, y.start, k + 1, y.new_.code, y.new_.code, relocs', jumps');
  }

  /** With every jump bound, the output is an expansion of the input. */
  lemma CallerDone(x: Rewrite, newOffsetAt: map<nat, nat>, relocs: seq<Reloc>, jumps: seq<nat>)
    requires CallerInv(x, |x.orig.code|, |x.orig.code| + 1, newOffsetAt, relocs, jumps)
    requires Compiled(x.orig) && x.base == 2 + x.orig.argsSize + x.orig.tempsSize
    ensures Spliced(x)
  {
    hide Placed, SiteCode, RawCode, JumpsTo, Offset, OffsetsKept, InstrInRange, CallerInstr;
    forall k | 0 <= k < |x.orig.code|
      ensures CallerInstr(x.orig, x.base, x.orig.code[k]) && if k in x.sites then SiteAt(x, k, x.sites[k])
      else RawAt(x, k) {
      InRangeCaller(x.orig, x.orig.code[k]);
      assert Placed(x, k);
      PlacedMeans(x, k);
      if IsJump(x.orig.code[k]) { JumpsKept(x, newOffsetAt, relocs, jumps, k); }
    }
  }

  lemma PlacedMeans(x: Rewrite, k: nat)
    requires k < |x.orig.code| && k + 1 < |x.start| && Placed(x, k)
    ensures k in x.sites ==> SiteCode(x, x.orig.code[k], x.start[k], x.start[k + 1], x.sites[k])
    ensures k !in x.sites ==> RawCode(x, x.orig.code[k], x.start[k], x.start[k + 1])
  {}

  lemma JumpsKept(x: Rewrite, newOffsetAt: map<nat, nat>, relocs: seq<Reloc>, jumps: seq<nat>, k: nat)
    requires CallerInv(x, |x.orig.code|, |x.orig.code| + 1, newOffsetAt, relocs, jumps)
    requires k < |x.orig.code| && IsJump(x.orig.code[k])
    ensures JumpKept(x, k)
  {
    hide Placed, Offset, OffsetsKept, PlacedBelow;
    assert k in jumps;
    var r :| 0 <= r < |jumps| && jumps[r] == k;
    assert TrackedJump(x.orig.code, x.start, |x.orig.code| + 1, x.new_.code, relocs[r], k);
    InCode(x.orig.code, k, Target(x.orig.code, k).value);
  }

  lemma InRangeCaller(m: Method, i: Instr)
    requires InstrInRange(m, i)
    ensures CallerInstr(m, 2 + m.argsSize + m.tempsSize, i)
  {
    if i.Send? {
      forall k | 0 <= k < |i.args| ensures CallerOperand(m, 2 + m.argsSize + m.tempsSize, i.args[k])
        { assert InRange(m, i.args[k]); }
    }
  }
}
