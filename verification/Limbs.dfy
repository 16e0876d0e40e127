/** Limb arrays as numbers: a magnitude is a sequence of 32-bit limbs, least
    significant first (vm/runtime/BigInt.h). `Val` is its mathematical value.
    Weights are kept out of the reasoning: a partly processed number is
    `Glue(prefix, t)`, the limbs already settled followed by a tail worth t. */
module Limbs {

  const BASE: int := 0x1_0000_0000

  type Limb = x: int | 0 <= x < 0x1_0000_0000

  // The C intermediates. Assigning to a variable of these types is an obligation
  // that the computed value fits, so no 64-bit overflow is hidden in the model.
  type U64 = x: int | 0 <= x < 0x1_0000_0000_0000_0000
  type I64 = x: int | -0x8000_0000_0000_0000 <= x < 0x8000_0000_0000_0000

  /** The low limb of a 64-bit intermediate, x & 0xFFFFFFFF. */
  function Lo(x: U64): Limb { x % BASE }

  /** The rest of it, x >> 32. */
  function Hi(x: U64): Limb { x / BASE }

  lemma LoHi(x: U64)
    ensures Lo(x) + BASE * Hi(x) == x
  {
  }

  ghost function Val(s: seq<Limb>): nat
  {
    if s == [] then 0 else s[0] + BASE * Val(s[1..])
  }

  ghost function Glue(p: seq<Limb>, t: int): int
  {
    if p == [] then t else p[0] + BASE * Glue(p[1..], t)
  }

  /** v * BASE^n */
  ghost function Shift(v: int, n: nat): int
  {
    if n == 0 then v else BASE * Shift(v, n - 1)
  }

  predicate Normalized(s: seq<Limb>)
  {
    s == [] || s[|s| - 1] != 0
  }

  function Max(x: nat, y: nat): nat { if x > y then x else y }
  function Min(x: nat, y: nat): nat { if x < y then x else y }

  // ----- Glue -----

  lemma GlueNil(p: seq<Limb>, t: int)
    ensures p == [] ==> Glue(p, t) == t
  {
  }

  lemma ValNil(s: seq<Limb>)
    ensures s == [] ==> Val(s) == 0
  {
  }

  lemma {:induction false} GlueSnoc(p: seq<Limb>, x: Limb, t: int)
    ensures Glue(p + [x], t) == Glue(p, x + BASE * t)
  {
    if p != [] {
      assert (p + [x])[1..] == p[1..] + [x];
      GlueSnoc(p[1..], x, t);
    }
  }

  /** The same, for a tail already worth x + BASE * t. */
  lemma GlueNext(p: seq<Limb>, x: Limb, t: int, tail: int)
    requires tail == x + BASE * t
    ensures Glue(p + [x], t) == Glue(p, tail)
  {
    GlueSnoc(p, x, t);
  }

  /** Settling one more limb of a number whose tail is worth t. */
  lemma GlueStep(before: seq<Limb>, after: seq<Limb>, t: int, t': int)
    requires |after| == |before| + 1 && after[..|before|] == before
    requires t == after[|before|] + BASE * t'
    ensures Glue(after, t') == Glue(before, t)
  {
    GlueSnoc(before, after[|before|], t');
    assert before + [after[|before|]] == after;
  }

  lemma {:induction false} GlueVal(p: seq<Limb>, q: seq<Limb>)
    ensures Glue(p, Val(q)) == Val(p + q)
  {
    if p == [] {
      assert p + q == q;
    } else {
      assert (p + q)[1..] == p[1..] + q;
      GlueVal(p[1..], q);
    }
  }

  lemma GlueZero(p: seq<Limb>)
    ensures Glue(p, 0) == Val(p)
  {
    GlueVal(p, []);
    assert p + [] == p;
  }

  lemma {:induction false} GlueShift(p: seq<Limb>, t: int, d: int)
    ensures Glue(p, t + d) == Glue(p, t) + Shift(d, |p|)
  {
    if p != [] {
      GlueShift(p[1..], t, d);
    }
  }

  // ----- Shift -----

  lemma ShiftNone(x: int)
    ensures Shift(x, 0) == x
  {
  }

  lemma {:induction false} ShiftAdd(x: int, y: int, n: nat)
    ensures Shift(x + y, n) == Shift(x, n) + Shift(y, n)
    ensures Shift(x - y, n) == Shift(x, n) - Shift(y, n)
  {
    if n > 0 {
      ShiftAdd(x, y, n - 1);
    }
  }

  lemma {:induction false} ShiftShift(x: int, m: nat, n: nat)
    ensures Shift(Shift(x, m), n) == Shift(x, m + n)
  {
    if n > 0 {
      ShiftShift(x, m, n - 1);
    }
  }

  lemma {:induction false} ShiftMono(x: int, y: int, n: nat)
    ensures x < y <==> Shift(x, n) < Shift(y, n)
  {
    if n > 0 {
      ShiftMono(x, y, n - 1);
    }
  }

  lemma {:induction false} ShiftZero(n: nat)
    ensures Shift(0, n) == 0
  {
    if n > 0 {
      ShiftZero(n - 1);
    }
  }

  lemma {:induction false} ShiftMul(x: int, y: int, n: nat)
    ensures Shift(x, n) * y == Shift(x * y, n) == x * Shift(y, n)
  {
    if n > 0 {
      ShiftMul(x, y, n - 1);
      MulBase(Shift(x, n - 1), y);
      MulBase(Shift(y, n - 1), x);
    }
  }

  lemma MulBase(x: int, y: int)
    ensures (BASE * x) * y == BASE * (x * y)
    ensures y * (BASE * x) == BASE * (x * y)
  {
  }

  lemma {:induction false} ShiftGrows(x: int, m: nat, n: nat)
    requires x >= 0 && m <= n
    ensures Shift(x, m) <= Shift(x, n)
    decreases n
  {
    if m < n {
      ShiftGrows(x, m, n - 1);
      ShiftNonneg(x, n - 1);
    }
  }

  lemma ShiftNonneg(x: int, n: nat)
    requires x >= 0
    ensures Shift(x, n) >= 0
  {
    ShiftZero(n);
    ShiftMono(x, 0, n);
  }

  // ----- values -----

  lemma {:induction false} ValBound(s: seq<Limb>)
    ensures Val(s) < Shift(1, |s|)
  {
    if s != [] {
      ValBound(s[1..]);
    }
  }

  lemma ValHead(s: seq<Limb>, i: nat)
    requires i < |s|
    ensures Val(s[i..]) == s[i] + BASE * Val(s[i + 1..])
  {
    assert s[i..][1..] == s[i + 1..];
  }

  lemma ValAppend(p: seq<Limb>, q: seq<Limb>)
    ensures Val(p + q) == Val(p) + Shift(Val(q), |p|)
  {
    hide Val, Glue, Shift;
    GlueVal(p, q);
    GlueShift(p, 0, Val(q));
    GlueZero(p);
  }

  /** Splitting a value at any limb boundary. */
  lemma ValSplit(s: seq<Limb>, k: nat)
    requires k <= |s|
    ensures Val(s) == Val(s[..k]) + Shift(Val(s[k..]), k)
  {
    hide Val, Glue, Shift;
    ValAppend(s[..k], s[k..]);
    assert s[..k] + s[k..] == s;
  }

  lemma {:induction false} ValZeros(s: seq<Limb>)
    requires forall i :: 0 <= i < |s| ==> s[i] == 0
    ensures Val(s) == 0
  {
    if s != [] {
      ValZeros(s[1..]);
    }
  }

  lemma ValTrim(s: seq<Limb>, k: nat)
    requires k <= |s| && forall i :: k <= i < |s| ==> s[i] == 0
    ensures Val(s) == Val(s[..k])
  {
    ValSplit(s, k);
    ValZeros(s[k..]);
    ShiftZero(k);
  }

  /** A negative tail makes the whole number negative: a borrow that escapes. */
  lemma {:induction false} GlueNegative(p: seq<Limb>, t: int)
    requires t < 0
    ensures Glue(p, t) < 0
  {
    if p != [] {
      GlueNegative(p[1..], t);
    }
  }

  /** A positive tail takes the number past |p| limbs: a carry that escapes. */
  lemma {:induction false} GlueLarge(p: seq<Limb>, t: int)
    requires t > 0
    ensures Glue(p, t) >= Shift(1, |p|)
  {
    if p != [] {
      GlueLarge(p[1..], t);
    }
  }

  lemma ValTop(s: seq<Limb>)
    requires s != [] && s[|s| - 1] != 0
    ensures Val(s) >= Shift(1, |s| - 1)
  {
    var n := |s| - 1;
    assert s == s[..n] + [s[n]];
    GlueSnoc(s[..n], s[n], 0);
    GlueZero(s);
    GlueLarge(s[..n], s[n]);
  }

  lemma Positive(s: seq<Limb>)
    requires s != [] && Normalized(s)
    ensures Val(s) >= 1
  {
    hide Val, Shift;
    ValTop(s);
    ShiftGrows(1, 0, |s| - 1);
    ShiftNone(1);
  }

  lemma NormalizedLength(s: seq<Limb>, t: seq<Limb>)
    requires Normalized(s) && Val(s) <= Val(t)
    ensures |s| <= |t|
  {
    if |t| < |s| {
      ValTop(s);
      ValBound(t);
      ShiftGrows(1, |t|, |s| - 1);
    }
  }

  lemma {:induction false} SameLengthUnique(s: seq<Limb>, t: seq<Limb>)
    requires |s| == |t| && Val(s) == Val(t)
    ensures s == t
  {
    if s != [] {
      SameLengthUnique(s[1..], t[1..]);
    }
  }

  /** Normalized magnitudes are the canonical representation of their value. */
  lemma NormalizedUnique(s: seq<Limb>, t: seq<Limb>)
    requires Normalized(s) && Normalized(t) && Val(s) == Val(t)
    ensures s == t
  {
    NormalizedLength(s, t);
    NormalizedLength(t, s);
    SameLengthUnique(s, t);
  }

  /** A product the solver is kept from expanding where it is hidden. */
  ghost function Prod(x: int, y: int): int { x * y }

  lemma ProdIs(x: int, y: int)
    ensures Prod(x, y) == x * y
  {
  }

  // ----- multiplication facts the solver is better told than left to find -----

  lemma MulMono(x: int, y: int, z: int)
    requires x <= y && 0 <= z
    ensures x * z <= y * z
  {
  }

  lemma Distribute(x: int, y: int, z: int)
    ensures (x + y) * z == x * z + y * z
    ensures (x - y) * z == x * z - y * z
    ensures z * (x + y) == z * x + z * y
    ensures z * (x - y) == z * x - z * y
  {
  }
}
