/** Labels and jump relocation: how a rewritten stream keeps every jump aimed at the image
    of its original target (vm/jit/Assembler.h, and the relocation tables of
    vm/compiler/Optimizer.c). */
module Relocation {
  import opened BytecodeMachine

  // ----- streams that differ in displacements only -----

  ghost predicate SameSizes(a: Code, b: Code, n: nat)
  {
    n <= |a| && n <= |b| && forall i {:trigger a[i]} {:trigger b[i]} :: 0 <= i < n ==> Size(a[i]) == Size(b[i])
  }

  lemma {:induction false} SameOffsets(a: Code, b: Code, n: nat, j: nat)
    requires SameSizes(a, b, n) && j <= n
    ensures Offset(a, j) == Offset(b, j)
    decreases j
  {
    if j > 0 {
      SameOffsets(a, b, n, j - 1);
      assert Size(a[j - 1]) == Size(b[j - 1]);
    }
  }

  lemma JumpStable(a: Code, b: Code, n: nat, j: nat, t: nat)
    requires SameSizes(a, b, n) && j < n && t <= n && a[j] == b[j] && JumpsTo(a, j, t)
    ensures JumpsTo(b, j, t)
  {
    SameOffsets(a, b, n, j + 1);
    SameOffsets(a, b, n, t);
  }

  function WithDisp(i: Instr, d: int): (r: Instr)
    requires IsJump(i)
    ensures IsJump(r) && Size(r) == Size(i) && SameButDisp(i, r)
  {
    match i
    case Jump(_) => Jump(d)
    case JumpNotMemberOf(c, op, _) => JumpNotMemberOf(c, op, d)
  }

  predicate SameButDisp(a: Instr, b: Instr)
  {
    || a == b
    || (a.Jump? && b.Jump?)
    || (a.JumpNotMemberOf? && b.JumpNotMemberOf? && a.class_ == b.class_ && a.operand == b.operand)
  }

  // ----- labels -----

  /** A label takes one reference and one binding, in either order. Bound first, offset is
      the byte offset it names; referenced first, offset is the instruction waiting for it. */
  datatype Label = Label(isBound: bool, isResolved: bool, offset: nat)

  const FRESH := Label(false, false, 0)

  class Assembler {
    var code: Code

    constructor ()
      ensures code == []
    {
      code := [];
    }

    method Emit(i: Instr)
      modifies this
      ensures code == old(code) + [i]
    {
      code := code + [i];
    }

    /** A jump through a label: lands where a bound label says, or is left to the binding. */
    method EmitJump(i: Instr, label_: Label) returns (r: Label)
      requires IsJump(i) && !label_.isResolved
      modifies this
      ensures |code| == |old(code)| + 1 && code[..|old(code)|] == old(code) && SameButDisp(i, code[|old(code)|])
      ensures r.isResolved && r.isBound == label_.isBound
      ensures label_.isBound ==> Offset(code, |code|) + code[|old(code)|].disp == label_.offset
      ensures !label_.isBound ==> r.offset == |old(code)|
    {
      var here := Offset(code, |code|);
      var j := WithDisp(i, if label_.isBound then label_.offset - here - Size(i) else 0);
      Appended(code, j);
      code := code + [j];
      r := Label(label_.isBound, true, if label_.isBound then label_.offset else |code| - 1);
    }

    /** Binding patches the jump that waits for the label, and nothing else. */
    method Bind(label_: Label, offset: nat, ghost t: nat) returns (r: Label)
      requires !label_.isBound && t <= |code| && offset == Offset(code, t)
      requires label_.isResolved ==> label_.offset < |code| && IsJump(code[label_.offset])
      modifies this
      ensures r.isBound && r.isResolved == label_.isResolved
      ensures |code| == |old(code)| && SameSizes(old(code), code, |code|)
      ensures forall i {:trigger code[i]} ::
        0 <= i < |code| && !(label_.isResolved && i == label_.offset) ==> code[i] == old(code)[i]
      ensures label_.isResolved ==>
        SameButDisp(old(code)[label_.offset], code[label_.offset]) &&
        JumpsTo(code, label_.offset, t)
      ensures !label_.isResolved ==> r.offset == offset
    {
      if label_.isResolved {
        var at := label_.offset;
        ghost var before := code;
        code := code[at := WithDisp(code[at], offset - Offset(code, at + 1))];
        SameOffsets(before, code, |code|, at + 1);
        SameOffsets(before, code, |code|, t);
      }
      r := Label(true, label_.isResolved, offset);
    }
  }

  lemma Appended(code: Code, i: Instr)
    ensures Offset(code + [i], |code|) == Offset(code, |code|)
    ensures Offset(code + [i], |code| + 1) == Offset(code, |code|) + Size(i)
  {
    SameOffsets(code, code + [i], |code|, |code|);
  }

  // ----- relocation tables -----

  /** A jump of the original stream, by the byte offset it aims at. */
  datatype Reloc = Reloc(target: int, bound: bool, label_: Label)

  /** Reloc q stands for jump j of src. Instructions below reached have their image at
      at[..]; a bound jump lands on the image of its target, an unbound one has its target
      still to come. */
  ghost predicate TrackedJump(src: Code, at: seq<nat>, reached: nat, code: Code, q: Reloc, j: nat)
  {
    && j < reached <= |at| && j < |src| && IsJump(src[j]) && Target(src, j).Some?
    && q.target == Offset(src, Target(src, j).value)
    && at[j] < |code| && IsJump(code[at[j]])
    && (if q.bound then
          Target(src, j).value < reached && JumpsTo(code, at[j], at[Target(src, j).value])
        else
          Target(src, j).value >= reached && q.label_ == Label(false, true, at[j]))
  }

  ghost predicate Tracked(src: Code, at: seq<nat>, reached: nat, code: Code, relocs: seq<Reloc>, jumps: seq<nat>)
  {
    && |jumps| == |relocs|
    && (forall r {:trigger relocs[r]} {:trigger jumps[r]} ::
      0 <= r < |relocs| ==> TrackedJump(src, at, reached, code, relocs[r], jumps[r]))
    && (forall r, q {:trigger jumps[r], jumps[q]} :: 0 <= r < q < |jumps| ==> at[jumps[r]] < at[jumps[q]])
  }

  /** The streams are equal but for displacements of the tracked jumps. */
  ghost predicate Retargeted(a: Code, b: Code, at: seq<nat>, jumps: seq<nat>)
  {
    && |a| == |b| && SameSizes(a, b, |a|)
    && (forall i {:trigger a[i]} {:trigger b[i]} :: 0 <= i < |a| ==> SameButDisp(a[i], b[i]))
    && (forall i {:trigger b[i]} :: 0 <= i < |a| && a[i] != b[i] ==> IsTracked(at, jumps, i))
  }

  ghost predicate IsTracked(at: seq<nat>, jumps: seq<nat>, i: int)
  {
    exists r {:trigger jumps[r]} :: 0 <= r < |jumps| && jumps[r] < |at| && at[jumps[r]] == i
  }

  lemma TrackedStable(src: Code, at: seq<nat>, reached: nat, a: Code, b: Code, q: Reloc, j: nat)
    requires TrackedJump(src, at, reached, a, q, j)
    requires SameSizes(a, b, |a|) && a[at[j]] == b[at[j]]
    ensures TrackedJump(src, at, reached, b, q, j)
  {
    if q.bound { JumpStable(a, b, |a|, at[j], at[Target(src, j).value]); }
  }

  /** The walk has come to the instruction at byte offset target, whose image starts here:
      every jump waiting for it is bound. */
  method BindReached(asm: Assembler, relocs: seq<Reloc>, target: nat, ghost src: Code, ghost at: seq<nat>,
      ghost jumps: seq<nat>) returns (r: seq<Reloc>)
    requires at != [] && |at| <= |src| + 1 && at[|at| - 1] == |asm.code| && target == Offset(src, |at| - 1)
    requires Tracked(src, at, |at| - 1, asm.code, relocs, jumps)
    modifies asm
    ensures Tracked(src, at, |at|, asm.code, r, jumps)
    ensures Retargeted(old(asm.code), asm.code, at, jumps)
  {
    r := relocs;
    var i := 0;
    while i < |relocs|
      invariant 0 <= i <= |relocs| == |r| == |jumps|
      invariant forall k {:trigger r[k]} {:trigger jumps[k]} ::
        0 <= k < i ==> TrackedJump(src, at, |at|, asm.code, r[k], jumps[k])
      invariant forall k {:trigger r[k]} {:trigger jumps[k]} ::
        i <= k < |r| ==> r[k] == relocs[k] && TrackedJump(src, at, |at| - 1, asm.code, r[k], jumps[k])
      invariant Retargeted(old(asm.code), asm.code, at, jumps)
    {
      hide Offset, JumpsTo, Target, SameSizes, Size, SameButDisp;
      ghost var before := asm.code;
      ghost var j := jumps[i];
      if !r[i].bound && r[i].target == target {
        SameTarget(src, Target(src, j).value, |at| - 1);
        var l := asm.Bind(r[i].label_, Offset(asm.code, |asm.code|), |asm.code|);
        r := r[i := Reloc(r[i].target, true, l)];
        assert TrackedJump(src, at, |at|, asm.code, r[i], j);
        forall k | 0 <= k < |r| && k != i
          ensures TrackedJump(src, at, if k < i then |at| else |at| - 1, asm.code, r[k], jumps[k]) {
          TrackedStable(src, at, if k < i then |at| else |at| - 1, before, asm.code, r[k], jumps[k]);
        }
        RetargetedOn(old(asm.code), before, asm.code, at, jumps, i);
      } else {
        OtherTarget(src, Target(src, j).value, |at| - 1, r[i].target, target);
      }
      i := i + 1;
    }
  }

  lemma SameTarget(src: Code, t: nat, i: nat)
    requires t <= |src| && i <= |src| && Offset(src, t) == Offset(src, i)
    ensures t == i
  {
    if t < i { OffsetMono(src, t, i); } else if i < t { OffsetMono(src, i, t); }
  }

  lemma OtherTarget(src: Code, t: nat, i: nat, x: int, y: int)
    requires t <= |src| && i <= |src| && x == Offset(src, t) && y == Offset(src, i)
    ensures x != y ==> t != i
  {}

  lemma RetargetedOn(a: Code, b: Code, c: Code, at: seq<nat>, jumps: seq<nat>, r: nat)
    requires Retargeted(a, b, at, jumps) && |b| == |c| && SameSizes(b, c, |b|)
    requires r < |jumps| && jumps[r] < |at| && at[jumps[r]] < |b| && SameButDisp(b[at[jumps[r]]], c[at[jumps[r]]])
    requires forall i {:trigger c[i]} :: 0 <= i < |b| && i != at[jumps[r]] ==> b[i] == c[i]
    ensures Retargeted(a, c, at, jumps)
  {
    forall i | 0 <= i < |a| ensures SameButDisp(a[i], c[i]) && (a[i] != c[i] ==> IsTracked(at, jumps, i)) &&
      Size(a[i]) == Size(c[i]) {
      assert SameButDisp(a[i], b[i]) && Size(a[i]) == Size(b[i]);
      if i == at[jumps[r]] { assert IsTracked(at, jumps, i); } else { assert b[i] == c[i]; }
    }
  }

  /** newOffsetAt[b] is the byte offset of the image of the instruction at byte offset b. */
  ghost predicate OffsetsKept(src: Code, at: seq<nat>, reached: nat, code: Code, newOffsetAt: map<nat, nat>)
  {
    && reached <= |at| && reached <= |src| + 1
    && forall i: nat {:trigger at[i]} :: i < reached ==>
         at[i] <= |code| && Offset(src, i) in newOffsetAt && newOffsetAt[Offset(src, i)] == Offset(code, at[i])
  }

  lemma OffsetsStable(src: Code, at: seq<nat>, reached: nat, a: Code, b: Code, newOffsetAt: map<nat, nat>)
    requires OffsetsKept(src, at, reached, a, newOffsetAt) && SameSizes(a, b, |a|)
    ensures OffsetsKept(src, at, reached, b, newOffsetAt)
  {
    forall i: nat | i < reached ensures at[i] <= |b| && Offset(a, at[i]) == Offset(b, at[i]) {
      assert at[i] <= |a|;
      SameOffsets(a, b, |a|, at[i]);
    }
  }

  /** Jump j of src is re-emitted as image: a backward one bound now from newOffsetAt, a
      forward one left for the walk to reach its target. */
  method AddJump(asm: Assembler, image: Instr, disp: int, newOffsetAt: map<nat, nat>, relocs: seq<Reloc>, end: nat,
                 ghost src: Code, ghost at: seq<nat>, ghost jumps: seq<nat>) returns (r: seq<Reloc>)
    requires at != [] && |at| <= |src| && at[|at| - 1] == |asm.code|
    requires IsJump(src[|at| - 1]) && disp == src[|at| - 1].disp && end == Offset(src, |at|) &&
      Target(src, |at| - 1).Some?
    requires IsJump(image)
    requires Tracked(src, at, |at|, asm.code, relocs, jumps) && OffsetsKept(src, at, |at|, asm.code, newOffsetAt)
    modifies asm
    ensures |asm.code| == |old(asm.code)| + 1 && asm.code[..|old(asm.code)|] == old(asm.code) &&
      SameButDisp(image, asm.code[|old(asm.code)|])
    ensures Tracked(src, at, |at|, asm.code, r, jumps + [|at| - 1])
  {
    ghost var j: nat, before := |at| - 1, asm.code;
    ghost var t := Target(src, j).value;
    assert JumpsTo(src, j, t);
    Backwards(src, j, t);
    var target := end + disp;
    var l := FRESH;
    if disp < 0 {
      assert at[t] <= |asm.code| && newOffsetAt[target] == Offset(asm.code, at[t]);
      l := asm.Bind(l, newOffsetAt[target], at[t]);
    }
    l := asm.EmitJump(image, l);
    var q := Reloc(target, disp < 0, l);
    r := relocs + [q];
    assert before == asm.code[..|before|];
    if disp < 0 { SameOffsets(before, asm.code, |before|, at[t]); }
    assert TrackedJump(src, at, |at|, asm.code, q, j);
    hide Offset, JumpsTo, Target, Size;
    forall k | 0 <= k < |relocs| ensures TrackedJump(src, at, |at|, asm.code, relocs[k], jumps[k]) {
      TrackedStable(src, at, |at|, before, asm.code, relocs[k], jumps[k]);
    }
  }

  lemma Backwards(src: Code, j: nat, t: nat)
    requires JumpsTo(src, j, t)
    ensures src[j].disp < 0 <==> t <= j
  {
    if t <= j { OffsetMono(src, t, j + 1); }
    if t > j + 1 { OffsetMono(src, j + 1, t); }
  }
}
