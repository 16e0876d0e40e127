/** Addition, subtraction and multiplication kernels of vm/runtime/BigInt.c.
    Read-only operands are limb sequences; output buffers are arrays. */
module BigIntMul {
  import opened Limbs

  const KARATSUBA_THRESHOLD := 40

  /** Strip trailing zero limbs. */
  method Normalize(a: seq<Limb>) returns (n: nat)
    ensures n <= |a| && Normalized(a[..n])
    ensures forall i :: n <= i < |a| ==> a[i] == 0
    ensures Val(a[..n]) == Val(a)
  {
    n := |a|;
    while n > 0 && a[n - 1] == 0
      invariant n <= |a|
      invariant forall i :: n <= i < |a| ==> a[i] == 0
    {
      n := n - 1;
    }
    ValTrim(a, n);
  }

  lemma {:induction false} CompareAt(a: seq<Limb>, b: seq<Limb>, i: nat)
    requires |a| == |b| && i < |a| && a[i + 1..] == b[i + 1..] && a[i] < b[i]
    ensures Val(a) < Val(b)
  {
    if i > 0 {
      assert a[1..][i..] == a[i + 1..] && b[1..][i..] == b[i + 1..];
      CompareAt(a[1..], b[1..], i - 1);
    }
  }

  /** Compares magnitudes: the sign of the answer is the sign of the difference. */
  method Compare(a: seq<Limb>, b: seq<Limb>) returns (c: int)
    requires Normalized(a) && Normalized(b)
    ensures c == if Val(a) < Val(b) then -1 else if Val(a) == Val(b) then 0 else 1
  {
    if |a| != |b| {
      if Val(a) <= Val(b) { NormalizedLength(a, b); }
      if Val(b) <= Val(a) { NormalizedLength(b, a); }
      return if |a| < |b| then -1 else 1;
    }
    var i := |a|;
    while i > 0
      invariant 0 <= i <= |a|
      invariant a[i..] == b[i..]
    {
      if a[i - 1] != b[i - 1] {
        if a[i - 1] < b[i - 1] { CompareAt(a, b, i - 1); } else { CompareAt(b, a, i - 1); }
        return if a[i - 1] < b[i - 1] then -1 else 1;
      }
      i := i - 1;
    }
    assert a[0..] == a && b[0..] == b;
    return 0;
  }

  /** The limb b[i], or 0 past the end of b, as the C loops read it. */
  function LimbOr0(b: seq<Limb>, i: nat): Limb { if i < |b| then b[i] else 0 }

  function Drop(b: seq<Limb>, i: nat): seq<Limb> { if i <= |b| then b[i..] else [] }

  lemma DropHead(b: seq<Limb>, i: nat)
    ensures Val(Drop(b, i)) == LimbOr0(b, i) + BASE * Val(Drop(b, i + 1))
  {
    if i < |b| { ValHead(b, i); }
  }

  method Add(a0: seq<Limb>, b0: seq<Limb>, out: array<Limb>) returns (n: nat)
    requires out.Length >= Max(|a0|, |b0|) + 1
    modifies out
    ensures n <= Max(|a0|, |b0|) + 1 && Normalized(out[..n])
    ensures Val(out[..n]) == Val(a0) + Val(b0)
    ensures forall i :: n <= i < Max(|a0|, |b0|) + 1 ==> out[i] == 0
    ensures forall i :: Max(|a0|, |b0|) + 1 <= i < out.Length ==> out[i] == old(out[i])
  {
    hide Val, Glue, Lo, Hi;
    var a, b := a0, b0;
    if |a| < |b| {
      a, b := b, a;
    }
    var carry: U64 := 0;
    var i := 0;
    assert a[0..] == a && b[0..] == b;
    GlueNil(out[..0], Val(a) + Val(b));
    while i < |a|
      invariant i <= |a| && carry <= 1
      invariant Glue(out[..i], Val(a[i..]) + Val(Drop(b, i)) + carry) == Val(a) + Val(b)
      invariant forall k :: |a| <= k < out.Length ==> out[k] == old(out[k])
    {
      hide Val, Glue, Lo, Hi, Drop, LimbOr0;
      ghost var before := out[..i];
      var sum: U64 := a[i] + carry + LimbOr0(b, i);
      LoHi(sum);
      out[i] := Lo(sum);
      ValHead(a, i);
      DropHead(b, i);
      assert out[..i + 1] == before + [Lo(sum)];
      ghost var t := Val(a[i + 1..]) + Val(Drop(b, i + 1)) + Hi(sum);
      assert Val(a[i..]) + Val(Drop(b, i)) + carry == Lo(sum) + BASE * t;
      GlueSnoc(before, Lo(sum), t);
      carry := Hi(sum);
      i := i + 1;
    }
    ghost var before := out[..|a|];
    ValNil(a[|a|..]);
    ValNil(Drop(b, |a|));
    out[|a|] := carry;
    GlueStep(before, out[..|a| + 1], carry, 0);
    GlueZero(out[..|a| + 1]);
    n := Normalize(out[..|a| + 1]);
    assert out[..|a| + 1][..n] == out[..n];
  }

  method Sub(a: seq<Limb>, b: seq<Limb>, out: array<Limb>) returns (n: nat)
    requires Normalized(b) && Val(b) <= Val(a)
    requires out.Length >= |a|
    modifies out
    ensures n <= |a| && Normalized(out[..n])
    ensures Val(out[..n]) == Val(a) - Val(b)
    ensures forall i :: n <= i < |a| ==> out[i] == 0
    ensures forall i :: |a| <= i < out.Length ==> out[i] == old(out[i])
  {
    hide Val, Glue;
    var borrow: I64 := 0;
    var i := 0;
    NormalizedLength(b, a);
    assert a[0..] == a && b[0..] == b;
    GlueNil(out[..0], Val(a) - Val(b));
    while i < |a|
      invariant i <= |a| && 0 <= borrow <= 1
      invariant Glue(out[..i], Val(a[i..]) - Val(Drop(b, i)) - borrow) == Val(a) - Val(b)
      invariant forall k :: |a| <= k < out.Length ==> out[k] == old(out[k])
    {
      hide Val, Glue, Drop, LimbOr0;
      ghost var before, borrow0 := out[..i], borrow;
      var diff: I64 := a[i] - borrow - LimbOr0(b, i);
      if diff < 0 {
        diff := diff + BASE;
        borrow := 1;
      } else {
        borrow := 0;
      }
      out[i] := diff;
      ValHead(a, i);
      DropHead(b, i);
      assert out[..i + 1] == before + [diff];
      ghost var t := Val(a[i + 1..]) - Val(Drop(b, i + 1)) - borrow;
      assert Val(a[i..]) - Val(Drop(b, i)) - borrow0 == diff + BASE * t;
      GlueSnoc(before, diff, t);
      i := i + 1;
    }
    ValNil(a[|a|..]);
    ValNil(Drop(b, |a|));
    if borrow != 0 { GlueNegative(out[..|a|], -1); }
    assert borrow == 0;
    GlueZero(out[..|a|]);
    n := Normalize(out[..|a|]);
    assert out[..|a|][..n] == out[..n];
  }

  lemma RowFits(o: Limb, ai: Limb, bj: Limb, carry: Limb)
    ensures 0 <= o + ai * bj + carry < BASE * BASE
  {
    MulMono(0, ai, bj);
    MulMono(ai, BASE - 1, bj);
  }

  /** The inner row of the schoolbook product: out += ai * b * BASE^i, where the
      limb above the row is still zero. */
  method MulRow(ai: Limb, b: seq<Limb>, i: nat, out: array<Limb>)
    requires i + |b| < out.Length
    requires out[i + |b|] == 0
    modifies out
    ensures Val(out[i..i + |b| + 1]) == Val(old(out[i..i + |b|])) + ai * Val(b)
    ensures forall k :: 0 <= k < out.Length && !(i <= k <= i + |b|) ==> out[k] == old(out[k])
  {
    hide Val, Glue, Lo, Hi;
    ghost var o0 := out[i..i + |b|];
    var nb := |b|;
    var carry: Limb := 0;
    var j := 0;
    ghost var done: seq<Limb> := [];
    ghost var tail := Val(o0) + ai * Val(b);
    assert o0[0..] == o0 && b[0..] == b;
    GlueNil(done, tail);
    while j < nb
      invariant j <= nb && |done| == j
      invariant tail == Val(o0[j..]) + ai * Val(b[j..]) + carry
      invariant Glue(done, tail) == Val(o0) + ai * Val(b)
      invariant out[i..i + j] == done && out[i + j..i + nb] == o0[j..]
      invariant forall k {:trigger out[k]} :: 0 <= k < out.Length && !(i <= k < i + nb) ==> out[k] == old(out[k])
    {
      hide Val, Glue, Lo, Hi;
      assert out[i + j] == out[i + j..i + nb][0] == o0[j];
      RowFits(out[i + j], ai, b[j], carry);
      var cur: U64 := out[i + j] + ai * b[j] + carry;
      LoHi(cur);
      RowTail(o0, b, j, ai);
      ghost var rest := Val(o0[j + 1..]) + ai * Val(b[j + 1..]) + Hi(cur);
      GlueNext(done, Lo(cur), rest, tail);
      out[i + j] := Lo(cur);
      assert out[i..i + j + 1] == done + [Lo(cur)];
      assert out[i + j + 1..i + nb] == o0[j..][1..] == o0[j + 1..];
      carry := Hi(cur);
      done := done + [Lo(cur)];
      tail := rest;
      j := j + 1;
    }
    RowCarry(out, i + nb, carry);
    ValNil(o0[nb..]);
    ValNil(b[nb..]);
    assert out[i..i + nb + 1] == done + [carry];
    GlueSnoc(done, carry, 0);
    GlueZero(done + [carry]);
  }

  lemma RowTail(o0: seq<Limb>, b: seq<Limb>, j: nat, ai: Limb)
    requires j < |o0| == |b|
    ensures Val(o0[j..]) + ai * Val(b[j..])
         == o0[j] + ai * b[j] + BASE * (Val(o0[j + 1..]) + ai * Val(b[j + 1..]))
  {
    ValHead(o0, j);
    ValHead(b, j);
    Distribute(b[j], BASE * Val(b[j + 1..]), ai);
    MulBase(Val(b[j + 1..]), ai);
  }

  /** A row's carry is a single limb and the limb above the row is still zero, so
      the propagation loop stores it and stops. */
  method RowCarry(out: array<Limb>, k0: nat, carry0: Limb)
    requires k0 < out.Length && out[k0] == 0
    modifies out
    ensures out[k0] == carry0
    ensures forall k :: 0 <= k < out.Length && k != k0 ==> out[k] == old(out[k])
  {
    hide Lo, Hi;
    var k := k0;
    var carry: U64 := carry0;
    while carry != 0
      invariant (k == k0 && carry == carry0 && out[k0] == 0) || (k == k0 + 1 && carry == 0 && out[k0] == carry0)
      invariant forall k :: 0 <= k < out.Length && k != k0 ==> out[k] == old(out[k])
      decreases k0 + 1 - k
    {
      hide Lo, Hi;
      var cur: U64 := out[k] + carry;
      LoHi(cur);
      out[k] := Lo(cur);
      carry := Hi(cur);
      k := k + 1;
    }
  }

  /** One limb of a: a row, or nothing for a zero limb. */
  method SchoolbookLimb(a: seq<Limb>, b: seq<Limb>, i: nat, out: array<Limb>, ghost done: seq<Limb>)
      returns (ghost after: seq<Limb>)
    requires i < |a| && |a| + |b| <= out.Length && out[i + |b|] == 0
    requires Glue(done, Val(out[i..i + |b|]) + Prod(Val(a[i..]), Val(b))) == Prod(Val(a), Val(b))
    modifies out
    ensures after == done + [out[i]] &&
      Glue(after, Val(out[i + 1..i + 1 + |b|]) + Prod(Val(a[i + 1..]), Val(b))) == Prod(Val(a), Val(b))
    ensures forall k :: 0 <= k < out.Length && !(i <= k <= i + |b|) ==> out[k] == old(out[k])
  {
    hide Val, Glue, Prod;
    ghost var row0 := out[i..i + |b|];
    if a[i] != 0 {
      MulRow(a[i], b, i, out);
      ProdIs(a[i], Val(b));
    } else {
      ZeroRow(out[i..i + |b| + 1], row0, Val(b));
    }
    SchoolbookRow(done, a, i, Val(b), Val(row0), out[i..i + |b| + 1]);
    assert out[i..i + |b| + 1][1..] == out[i + 1..i + 1 + |b|];
    after := done + [out[i]];
  }

  method MulSchoolbook(a: seq<Limb>, b: seq<Limb>, out: array<Limb>)
    requires out.Length >= |a| + |b|
    modifies out
    ensures Val(out[..|a| + |b|]) == Val(a) * Val(b)
    ensures forall k :: |a| + |b| <= k < out.Length ==> out[k] == old(out[k])
  {
    hide Val, Glue, Prod;
    var na, nb := |a|, |b|;
    forall k | 0 <= k < na + nb { out[k] := 0; }
    ValZeros(out[0..nb]);
    var i := 0;
    ghost var done: seq<Limb> := [];
    assert a[0..] == a;
    GlueNil(done, Prod(Val(a), Val(b)));
    while i < na
      invariant i <= na && |done| == i
      invariant Glue(done, Val(out[i..i + nb]) + Prod(Val(a[i..]), Val(b))) == Prod(Val(a), Val(b))
      invariant forall k :: 0 <= k < i ==> out[k] == done[k]
      invariant forall k :: i + nb <= k < na + nb ==> out[k] == 0
      invariant forall k :: na + nb <= k < out.Length ==> out[k] == old(out[k])
    {
      hide Val, Glue, Prod;
      done := SchoolbookLimb(a, b, i, out, done);
      i := i + 1;
    }
    ValNil(a[na..]);
    ProdIs(0, Val(b));
    ProdIs(Val(a), Val(b));
    GlueVal(done, out[na..na + nb]);
    assert done + out[na..na + nb] == out[..na + nb];
  }

  lemma ZeroRow(row: seq<Limb>, row0: seq<Limb>, vb: int)
    requires |row| == |row0| + 1 && row[..|row0|] == row0 && row[|row0|] == 0
    ensures Val(row) == Val(row0) + Prod(0, vb)
  {
    hide Val;
    ValTrim(row, |row0|);
  }

  lemma SchoolbookRow(done: seq<Limb>, a: seq<Limb>, i: nat, vb: int, row0: int, row: seq<Limb>)
    requires i < |a| && row != [] && Val(row) == row0 + Prod(a[i], vb)
    ensures Glue(done + [row[0]], Val(row[1..]) + Prod(Val(a[i + 1..]), vb)) == Glue(done, row0 + Prod(Val(a[i..]), vb))
  {
    hide Val, Glue;
    ValHead(a, i);
    ValHead(row, 0);
    assert row[0..] == row;
    Distribute(a[i], BASE * Val(a[i + 1..]), vb);
    MulBase(Val(a[i + 1..]), vb);
    GlueSnoc(done, row[0], Val(row[1..]) + Prod(Val(a[i + 1..]), vb));
  }

  /** Adding at a limb offset is adding to the window w above that offset: `done` are
      the limbs rewritten there, `rest` the untouched limbs above them. */
  lemma WindowValue(lo: seq<Limb>, w: seq<Limb>, done: seq<Limb>, rest: seq<Limb>, v: int)
    requires Glue(done, Val(rest)) == Val(w) + v
    ensures Val(lo + (done + rest)) == Val(lo + w) + Shift(v, |lo|)
  {
    hide Val, Shift, Glue;
    GlueVal(done, rest);
    ValAppend(lo, w);
    ValAppend(lo, done + rest);
    ShiftAdd(Val(w), v, |lo|);
  }

  /** d is d0 with the limbs done written from offset on. */
  ghost predicate Rewritten(d0: seq<Limb>, d: seq<Limb>, offset: nat, done: seq<Limb>)
  {
    offset + |done| <= |d0| == |d| && d[..offset] == d0[..offset] && d[offset..offset + |done|] == done &&
      d[offset + |done|..] == d0[offset + |done|..]
  }

  lemma WindowPieces(d0: seq<Limb>, d: seq<Limb>, offset: nat, done: seq<Limb>)
    requires Rewritten(d0, d, offset, done)
    ensures d0 == d0[..offset] + d0[offset..]
    ensures d == d0[..offset] + (done + d0[offset..][|done|..])
  {
    assert d0[offset..][|done|..] == d0[offset + |done|..];
    assert d == d[..offset] + (d[offset..offset + |done|] + d[offset + |done|..]);
  }

  lemma RewrittenValue(d0: seq<Limb>, d: seq<Limb>, offset: nat, done: seq<Limb>, v: int)
    requires Rewritten(d0, d, offset, done) && Glue(done, Val(d0[offset..][|done|..])) == Val(d0[offset..]) + v
    ensures Val(d) == Val(d0) + Shift(v, offset)
  {
    WindowPieces(d0, d, offset, done);
    hide Val, Glue, Shift, Rewritten;
    WindowValue(d0[..offset], d0[offset..], done, d0[offset..][|done|..], v);
  }

  /** Writing the next limb. */
  lemma WriteNext(d0: seq<Limb>, d: seq<Limb>, offset: nat, done: seq<Limb>, x: Limb)
    requires Rewritten(d0, d, offset, done) && offset + |done| < |d0|
    ensures d[offset + |done|] == d0[offset + |done|] == d0[offset..][|done|] &&
      Rewritten(d0, d[offset + |done| := x], offset, done + [x])
  {
    var n := offset + |done|;
    var d' := d[n := x];
    assert d[n] == d[n..][0] == d0[n..][0];
    assert d'[..offset] == d[..offset];
    assert d'[offset..n + 1] == d[offset..n] + [x];
    assert d'[n + 1..] == d[n..][1..] == d0[n..][1..] == d0[n + 1..];
  }

  lemma WindowBound(d: seq<Limb>, offset: nat, v: int)
    requires offset <= |d|
    ensures Val(d) + Shift(v, offset) < Shift(1, |d|) ==> Val(d[offset..]) + v < Shift(1, |d| - offset)
    ensures Shift(v, offset) <= Val(d) ==> v <= Val(d[offset..])
  {
    hide Val, Shift;
    var w := Val(d[offset..]);
    ValSplit(d, offset);
    ValBound(d[..offset]);
    ShiftShift(1, |d| - offset, offset);
    ShiftAdd(w, v, offset);
    ShiftAdd(w, 1, offset);
    ShiftMono(w + v, Shift(1, |d| - offset), offset);
    ShiftMono(v, w + 1, offset);
  }

  /** The limbs of src, one by one. */
  method AddLimbs(dst: array<Limb>, ndst: nat, src: seq<Limb>, offset: nat) returns (carry: U64, ghost done: seq<Limb>)
    requires offset + |src| <= ndst <= dst.Length
    modifies dst
    ensures carry <= 1 && |done| == |src| && Rewritten(old(dst[..ndst]), dst[..ndst], offset, done)
    ensures Glue(done, Val(old(dst[..ndst])[offset..][|src|..]) + carry) == Val(old(dst[..ndst])[offset..]) + Val(src)
    ensures forall k {:trigger dst[k]} :: ndst <= k < dst.Length ==> dst[k] == old(dst[k])
  {
    hide Val, Glue, Lo, Hi, Rewritten;
    ghost var d0 := dst[..ndst];
    ghost var w0 := d0[offset..];
    done := [];
    ghost var tail := Val(w0) + Val(src);
    GlueNil(done, tail);
    NothingRewritten(d0, offset);
    assert w0[0..] == w0 && src[0..] == src;
    carry := 0;
    var i := 0;
    while i < |src|
      invariant i <= |src| && carry <= 1 && |done| == i && Rewritten(d0, dst[..ndst], offset, done)
      invariant tail == Val(w0[i..]) + Val(src[i..]) + carry && Glue(done, tail) == Val(w0) + Val(src)
      invariant forall k {:trigger dst[k]} :: ndst <= k < dst.Length ==> dst[k] == old(dst[k])
    {
      hide Val, Glue, Lo, Hi, Rewritten;
      ghost var d := dst[..ndst];
      var cur: U64 := dst[offset + i] + src[i] + carry;
      LoHi(cur);
      WriteNext(d0, d, offset, done, Lo(cur));
      ValHead(w0, i);
      ValHead(src, i);
      ghost var t := Val(w0[i + 1..]) + Val(src[i + 1..]) + Hi(cur);
      GlueNext(done, Lo(cur), t, tail);
      dst[offset + i] := Lo(cur);
      assert dst[..ndst] == d[offset + i := Lo(cur)];
      tail := t;
      carry := Hi(cur);
      done := done + [Lo(cur)];
      i := i + 1;
    }
    ValNil(src[i..]);
  }

  /** In-place dst += src * BASE^offset. Needing the sum to fit is what keeps the
      carry inside the buffer. */
  method AddInto(dst: array<Limb>, ndst: nat, src: seq<Limb>, offset: nat)
    requires offset + |src| <= ndst <= dst.Length
    requires Val(dst[..ndst]) + Shift(Val(src), offset) < Shift(1, ndst)
    modifies dst
    ensures Val(dst[..ndst]) == Val(old(dst[..ndst])) + Shift(Val(src), offset)
    ensures forall k :: ndst <= k < dst.Length ==> dst[k] == old(dst[k])
  {
    hide Val, Glue, Shift, Rewritten;
    ghost var d0 := dst[..ndst];
    WindowBound(d0, offset, Val(src));
    var carry: U64;
    ghost var done: seq<Limb>;
    carry, done := AddLimbs(dst, ndst, src, offset);
    done := RippleCarry(dst, ndst, offset, d0, done, Val(src), offset + |src|, carry);
    RewrittenValue(d0, dst[..ndst], offset, done, Val(src));
  }

  lemma NothingRewritten(d0: seq<Limb>, offset: nat)
    requires offset <= |d0|
    ensures Rewritten(d0, d0, offset, [])
  {
  }

  /** The carry tail of AddInto: d0 is the original buffer, done the limbs already
      settled above offset. Answers the limbs settled in the end. */
  method RippleCarry(dst: array<Limb>, ndst: nat, ghost offset: nat, ghost d0: seq<Limb>, ghost done0: seq<Limb>,
      ghost v: int,
      k0: nat, carry0: U64) returns (ghost done: seq<Limb>)
    requires offset <= k0 <= ndst <= dst.Length && |d0| == ndst && |done0| == k0 - offset && carry0 <= 1 &&
      Rewritten(d0, dst[..ndst], offset, done0)
    requires Glue(done0, Val(d0[offset..][|done0|..]) + carry0) == Val(d0[offset..]) + v < Shift(1, |d0[offset..]|)
    modifies dst
    ensures |done| <= ndst - offset && Rewritten(d0, dst[..ndst], offset, done) &&
      Glue(done, Val(d0[offset..][|done|..])) == Val(d0[offset..]) + v
    ensures forall k {:trigger dst[k]} :: ndst <= k < dst.Length ==> dst[k] == old(dst[k])
  {
    hide Val, Glue, Shift, Lo, Hi, Rewritten;
    ghost var w := d0[offset..];
    done := done0;
    var k := k0;
    var carry: U64 := carry0;
    ghost var tail := Val(w[|done|..]) + carry;
    while carry != 0
      invariant offset <= k <= ndst && carry <= 1 && |done| == k - offset && Rewritten(d0, dst[..ndst], offset, done)
      invariant tail == Val(w[|done|..]) + carry && Glue(done, tail) == Val(w) + v
      invariant forall m {:trigger dst[m]} :: ndst <= m < dst.Length ==> dst[m] == old(dst[m])
      decreases ndst - k
    {
      hide Val, Glue, Shift, Lo, Hi, Rewritten;
      if k == ndst {
        ValNil(w[|done|..]);
        GlueLarge(done, carry);
      }
      assert k < ndst;
      ghost var d := dst[..ndst];
      var cur: U64 := dst[k] + carry;
      LoHi(cur);
      WriteNext(d0, d, offset, done, Lo(cur));
      ValHead(w, |done|);
      ghost var t := Val(w[|done| + 1..]) + Hi(cur);
      GlueNext(done, Lo(cur), t, tail);
      dst[k] := Lo(cur);
      assert dst[..ndst] == d[k := Lo(cur)];
      tail := t;
      carry := Hi(cur);
      done := done + [Lo(cur)];
      k := k + 1;
    }
  }

  /** The limbs of src, one by one. */
  method SubLimbs(dst: array<Limb>, ndst: nat, src: seq<Limb>, offset: nat) returns (borrow: I64, ghost done: seq<Limb>)
    requires offset + |src| <= ndst <= dst.Length
    modifies dst
    ensures 0 <= borrow <= 1 && |done| == |src| && Rewritten(old(dst[..ndst]), dst[..ndst], offset, done)
    ensures Glue(done, Val(old(dst[..ndst])[offset..][|src|..]) - borrow) == Val(old(dst[..ndst])[offset..]) - Val(src)
    ensures forall k {:trigger dst[k]} :: ndst <= k < dst.Length ==> dst[k] == old(dst[k])
  {
    hide Val, Glue, Rewritten;
    ghost var d0 := dst[..ndst];
    ghost var w0 := d0[offset..];
    done := [];
    ghost var tail := Val(w0) - Val(src);
    GlueNil(done, tail);
    NothingRewritten(d0, offset);
    assert w0[0..] == w0 && src[0..] == src;
    borrow := 0;
    var i := 0;
    while i < |src|
      invariant i <= |src| && 0 <= borrow <= 1 && |done| == i && Rewritten(d0, dst[..ndst], offset, done)
      invariant tail == Val(w0[i..]) - Val(src[i..]) - borrow && Glue(done, tail) == Val(w0) - Val(src)
      invariant forall k {:trigger dst[k]} :: ndst <= k < dst.Length ==> dst[k] == old(dst[k])
    {
      hide Val, Glue, Rewritten;
      ghost var d := dst[..ndst];
      var diff: I64 := dst[offset + i] - borrow - src[i];
      if diff < 0 {
        diff := diff + BASE;
        borrow := 1;
      } else {
        borrow := 0;
      }
      WriteNext(d0, d, offset, done, diff);
      ValHead(w0, i);
      ValHead(src, i);
      ghost var t := Val(w0[i + 1..]) - Val(src[i + 1..]) - borrow;
      GlueNext(done, diff, t, tail);
      dst[offset + i] := diff;
      assert dst[..ndst] == d[offset + i := diff as Limb];
      tail := t;
      done := done + [diff];
      i := i + 1;
    }
    ValNil(src[i..]);
  }

  /** In-place dst -= src * BASE^offset. Needing the difference to be a magnitude
      is what keeps the borrow inside the buffer. */
  method SubFrom(dst: array<Limb>, ndst: nat, src: seq<Limb>, offset: nat)
    requires offset + |src| <= ndst <= dst.Length
    requires Shift(Val(src), offset) <= Val(dst[..ndst])
    modifies dst
    ensures Val(dst[..ndst]) == Val(old(dst[..ndst])) - Shift(Val(src), offset)
    ensures forall k :: ndst <= k < dst.Length ==> dst[k] == old(dst[k])
  {
    hide Val, Glue, Shift, Rewritten;
    ghost var d0 := dst[..ndst];
    WindowBound(d0, offset, Val(src));
    var borrow: I64;
    ghost var done: seq<Limb>;
    borrow, done := SubLimbs(dst, ndst, src, offset);
    done := RippleBorrow(dst, ndst, offset, d0, done, 0 - Val(src), offset + |src|, borrow);
    RewrittenValue(d0, dst[..ndst], offset, done, 0 - Val(src));
    ShiftAdd(0, Val(src), offset);
    ShiftZero(offset);
  }

  /** The borrow tail of SubFrom, as RippleCarry is AddInto's. */
  method RippleBorrow(dst: array<Limb>, ndst: nat, ghost offset: nat, ghost d0: seq<Limb>, ghost done0: seq<Limb>,
      ghost v: int,
      k0: nat, borrow0: I64) returns (ghost done: seq<Limb>)
    requires offset <= k0 <= ndst <= dst.Length && |d0| == ndst && |done0| == k0 - offset && 0 <= borrow0 <= 1 &&
      Rewritten(d0, dst[..ndst], offset, done0)
    requires Glue(done0, Val(d0[offset..][|done0|..]) - borrow0) == Val(d0[offset..]) + v >= 0
    modifies dst
    ensures |done| <= ndst - offset && Rewritten(d0, dst[..ndst], offset, done) &&
      Glue(done, Val(d0[offset..][|done|..])) == Val(d0[offset..]) + v
    ensures forall k {:trigger dst[k]} :: ndst <= k < dst.Length ==> dst[k] == old(dst[k])
  {
    hide Val, Glue, Rewritten;
    ghost var w := d0[offset..];
    done := done0;
    var k, borrow := k0, borrow0;
    ghost var tail := Val(w[|done|..]) - borrow;
    while borrow != 0
      invariant offset <= k <= ndst && 0 <= borrow <= 1 && |done| == k - offset &&
        Rewritten(d0, dst[..ndst], offset, done)
      invariant tail == Val(w[|done|..]) - borrow && Glue(done, tail) == Val(w) + v
      invariant forall m {:trigger dst[m]} :: ndst <= m < dst.Length ==> dst[m] == old(dst[m])
      decreases ndst - k
    {
      hide Val, Glue, Rewritten;
      if k == ndst {
        ValNil(w[|done|..]);
        GlueNegative(done, -borrow);
      }
      assert k < ndst;
      ghost var d := dst[..ndst];
      var diff: I64 := dst[k] - borrow;
      if diff < 0 {
        diff := diff + BASE;
        borrow := 1;
      } else {
        borrow := 0;
      }
      WriteNext(d0, d, offset, done, diff);
      ValHead(w, |done|);
      ghost var t := Val(w[|done| + 1..]) - borrow;
      GlueNext(done, diff, t, tail);
      dst[k] := diff;
      assert dst[..ndst] == d[k := diff as Limb];
      tail := t;
      done := done + [diff];
      k := k + 1;
    }
  }

  lemma ProductBound(a: seq<Limb>, b: seq<Limb>)
    ensures Val(a) * Val(b) < Shift(1, |a| + |b|)
  {
    hide Val, Shift;
    ValBound(a);
    ValBound(b);
    var p, q := Shift(1, |a|), Shift(1, |b|);
    MulMono(Val(a), p - 1, Val(b));
    MulMono(Val(b), q, p);
    Distribute(p, 1, Val(b));
    ShiftMul(1, q, |a|);
    ShiftShift(1, |b|, |a|);
  }

  /** (x0 + x1*B)*(y0 + y1*B) from three products, B being BASE^h. */
  lemma KaratsubaIdentity(x0: int, x1: int, y0: int, y1: int, h: nat)
    ensures (x0 + Shift(x1, h)) * (y0 + Shift(y1, h))
         == x0 * y0 + Shift((x0 + x1) * (y0 + y1) - x0 * y0 - x1 * y1, h) + Shift(x1 * y1, 2 * h)
    ensures (x0 + x1) * (y0 + y1) == x0 * y0 + x1 * y1 + x0 * y1 + x1 * y0
  {
    hide Shift;
    Expand(x0, Shift(x1, h), y0, Shift(y1, h));
    Expand(x0, x1, y0, y1);
    ShiftMul(x1, y0, h);
    ShiftMul(x0, y1, h);
    ShiftMul(x1, Shift(y1, h), h);
    ShiftMul(x1, y1, h);
    ShiftShift(x1 * y1, h, h);
    ShiftAdd(x0 * y1, x1 * y0, h);
  }

  lemma Expand(x0: int, x1: int, y0: int, y1: int)
    ensures (x0 + x1) * (y0 + y1) == x0 * y0 + x1 * y1 + x0 * y1 + x1 * y0
  {
    Distribute(x0, x1, y0 + y1);
    Distribute(y0, y1, x0);
    Distribute(y0, y1, x1);
  }

  /** A normalized src whose shifted value fits ndst limbs stays inside them. */
  lemma ShiftedFits(src: seq<Limb>, offset: nat, ndst: nat)
    requires Normalized(src) && Shift(Val(src), offset) < Shift(1, ndst) && offset <= ndst
    ensures offset + |src| <= ndst
  {
    hide Val, Shift;
    if ndst < offset + |src| {
      ValTop(src);
      ShiftMono(Val(src), Shift(1, |src| - 1), offset);
      ShiftShift(1, |src| - 1, offset);
      ShiftGrows(1, ndst, |src| - 1 + offset);
    }
  }

  lemma Products(x0: nat, x1: nat, y0: nat, y1: nat)
    ensures x0 * y0 >= 0 && x1 * y1 >= 0 && x0 * y1 >= 0 && x1 * y0 >= 0
  {
    MulMono(0, x0, y0);
    MulMono(0, x1, y1);
    MulMono(0, x0, y1);
    MulMono(0, x1, y0);
  }

  /** The two halves of an operand split at limb `half`. */
  lemma Halves(a: seq<Limb>, half: nat)
    ensures var k := Min(|a|, half); Val(a) == Val(a[..k]) + Shift(Val(a[k..]), half)
  {
    hide Val, Shift;
    if |a| < half {
      ValNil(a[|a|..]);
      ShiftZero(half);
      assert a[..|a|] == a;
    } else {
      ValSplit(a, half);
    }
  }

  /** The product, by three half-size products above the threshold. The measure is
      the longer operand: every recursive operand is shorter. */
  method MulKaratsuba(a: seq<Limb>, b: seq<Limb>, out: array<Limb>)
    requires out.Length >= |a| + |b|
    modifies out
    ensures Val(out[..|a| + |b|]) == Val(a) * Val(b)
    ensures forall k :: |a| + |b| <= k < out.Length ==> out[k] == old(out[k])
    decreases Max(|a|, |b|), 1
  {
    hide Val, Glue, Shift;
    var na, nb := |a|, |b|;
    var half := Max(na, nb) / 2;
    if half == 0 || na <= KARATSUBA_THRESHOLD || nb <= KARATSUBA_THRESHOLD {
      MulSchoolbook(a, b, out);
      return;
    }
    var na0 := Min(na, half);
    var nb0 := Min(nb, half);
    var a0, a1 := a[..na0], a[na0..];
    var b0, b1 := b[..nb0], b[nb0..];
    Halves(a, half);
    Halves(b, half);
    var n := Normalize(a0); a0 := a0[..n];
    n := Normalize(b0); b0 := b0[..n];
    n := Normalize(a1); a1 := a1[..n];
    n := Normalize(b1); b1 := b1[..n];
    if |a0| > 0 && |b0| > 0 {
      KaratsubaStep(a, b, half, a0, a1, b0, b1, out);
    } else {
      MulSchoolbook(a, b, out);
    }
  }

  /** A fresh normalized product. */
  method Product(x: seq<Limb>, y: seq<Limb>) returns (z: seq<Limb>)
    ensures Normalized(z) && |z| <= |x| + |y| && Val(z) == Val(x) * Val(y)
    decreases Max(|x|, |y|), 2
  {
    hide Val;
    var buffer := new Limb[|x| + |y|](_ => 0);
    MulKaratsuba(x, y, buffer);
    var n := Normalize(buffer[..]);
    assert buffer[..|x| + |y|] == buffer[..];
    z := buffer[..n];
    assert buffer[..][..n] == z;
  }

  /** The z1 buffer: (x0 + x1) * (y0 + y1), zero above the product's own limbs. */
  method SumsProduct(x0: seq<Limb>, x1: seq<Limb>, y0: seq<Limb>, y1: seq<Limb>) returns (z: array<Limb>)
    ensures fresh(z) && z.Length == Max(|x0|, |x1|) + Max(|y0|, |y1|) + 2
    ensures Val(z[..z.Length]) == (Val(x0) + Val(x1)) * (Val(y0) + Val(y1))
    decreases Max(Max(|x0|, |x1|), Max(|y0|, |y1|)) + 1, 2
  {
    hide Val;
    var nsx, nsy := Max(|x0|, |x1|) + 1, Max(|y0|, |y1|) + 1;
    var sumX := new Limb[nsx](_ => 0);
    var sumY := new Limb[nsy](_ => 0);
    z := new Limb[nsx + nsy](_ => 0);
    var nSumX := Add(x0, x1, sumX);
    var nSumY := Add(y0, y1, sumY);
    MulKaratsuba(sumX[..nSumX], sumY[..nSumY], z);
    ValTrim(z[..z.Length], nSumX + nSumY);
    assert z[..z.Length][..nSumX + nSumY] == z[..nSumX + nSumY];
  }

  /** The recombination: out := z0, then + z2*B^2, then + (sums product - z0 - z2)*B.
      Every partial sum is below the product, so no carry escapes; the middle term
      is the sum of the cross products, so neither subtraction underflows. */
  method KaratsubaStep(a: seq<Limb>, b: seq<Limb>, half: nat,
      a0: seq<Limb>, a1: seq<Limb>, b0: seq<Limb>, b1: seq<Limb>, out: array<Limb>)
    requires Val(a) == Val(a0) + Shift(Val(a1), half) && Val(b) == Val(b0) + Shift(Val(b1), half)
    requires half == Max(|a|, |b|) / 2 && half > 1
    requires |a0| <= |a| && |b0| <= |b|
    requires |a0| <= half && |b0| <= half && |a1| <= Max(|a|, |b|) - half && |b1| <= Max(|a|, |b|) - half
    requires out.Length >= |a| + |b|
    modifies out
    ensures Val(out[..|a| + |b|]) == Val(a) * Val(b)
    ensures forall k :: |a| + |b| <= k < out.Length ==> out[k] == old(out[k])
    decreases Max(|a|, |b|), 0
  {
    hide Val, Shift;
    var n := |a| + |b|;
    ghost var x0, x1, y0, y1 := Val(a0), Val(a1), Val(b0), Val(b1);
    KaratsubaBounds(a, b, x0, x1, y0, y1, half);
    forall k | 0 <= k < n { out[k] := 0; }
    ValZeros(out[..n]);

    var z0 := Product(a0, b0);
    AddInto(out, n, z0, 0);
    var tmp := SumsProduct(a0, a1, b0, b1);
    SubFromWhole(tmp, z0);
    if |a1| > 0 && |b1| > 0 {
      var z2 := Product(a1, b1);
      ShiftedFits(z2, 2 * half, n);
      AddInto(out, n, z2, 2 * half);
      SubFromWhole(tmp, z2);
    } else {
      ValNil(a1);
      ValNil(b1);
      ShiftZero(2 * half);
    }
    var nTmp := Normalize(tmp[..]);
    assert tmp[..][..nTmp] == tmp[..nTmp] && tmp[..] == tmp[..tmp.Length];
    ShiftedFits(tmp[..nTmp], half, n);
    AddInto(out, n, tmp[..nTmp], half);
  }

  method SubFromWhole(tmp: array<Limb>, z: seq<Limb>)
    requires Normalized(z) && Val(z) <= Val(tmp[..tmp.Length])
    modifies tmp
    ensures Val(tmp[..tmp.Length]) == Val(old(tmp[..tmp.Length])) - Val(z)
  {
    hide Val, Shift;
    NormalizedLength(z, tmp[..tmp.Length]);
    ShiftNone(Val(z));
    SubFrom(tmp, tmp.Length, z, 0);
  }

  /** Everything the recombination needs, for a = x0 + x1*B and b = y0 + y1*B. */
  lemma KaratsubaBounds(a: seq<Limb>, b: seq<Limb>, x0: nat, x1: nat, y0: nat, y1: nat, half: nat)
    requires Val(a) == x0 + Shift(x1, half) && Val(b) == y0 + Shift(y1, half)
    ensures var m := (x0 + x1) * (y0 + y1) - x0 * y0 - x1 * y1;
      && 0 <= m && 0 <= x0 * y0 && 0 <= x1 * y1
      && 0 <= Shift(m, half) && 0 <= Shift(x1 * y1, 2 * half)
      && Val(a) * Val(b) == x0 * y0 + Shift(m, half) + Shift(x1 * y1, 2 * half) < Shift(1, |a| + |b|)
      && Shift(x0 * y0, 0) == x0 * y0
  {
    hide Val, Shift;
    KaratsubaIdentity(x0, x1, y0, y1, half);
    Products(x0, x1, y0, y1);
    ProductBound(a, b);
    ShiftNonneg((x0 + x1) * (y0 + y1) - x0 * y0 - x1 * y1, half);
    ShiftNonneg(x1 * y1, 2 * half);
    ShiftNone(x0 * y0);
  }

  /** The public entry point: schoolbook below the threshold, Karatsuba above it. */
  method Mul(a: seq<Limb>, b: seq<Limb>, out: array<Limb>) returns (n: nat)
    requires out.Length >= |a| + |b|
    modifies out
    ensures n <= |a| + |b| && Normalized(out[..n]) && Val(out[..n]) == Val(a) * Val(b)
    ensures forall k :: |a| + |b| <= k < out.Length ==> out[k] == old(out[k])
  {
    hide Val;
    ValNil(a);
    ValNil(b);
    if |a| == 0 || |b| == 0 {
      ValNil(out[..0]);
      return 0;
    }
    if |a| <= KARATSUBA_THRESHOLD || |b| <= KARATSUBA_THRESHOLD {
      MulSchoolbook(a, b, out);
    } else {
      MulKaratsuba(a, b, out);
    }
    n := Normalize(out[..|a| + |b|]);
    assert out[..|a| + |b|][..n] == out[..n];
  }
}
