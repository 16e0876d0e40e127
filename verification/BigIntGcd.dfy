/** Shifts of whole magnitudes and Stein's binary gcd (vm/runtime/BigInt.c:407-563). */
module BigIntGcd {
  import opened Limbs
  import opened BigIntMul
  import opened BigIntShift

  // ----- shifts -----

  lemma {:induction false} ShiftIsPow2(x: int, n: nat)
    ensures Shift(x, n) == x * Pow2(32 * n)
  {
    if n > 0 {
      ShiftIsPow2(x, n - 1);
      Pow2Limb();
      Pow2Add(32, 32 * (n - 1));
      MulBase(Pow2(32 * (n - 1)), x);
    }
  }

  lemma SplitBits(x: int, bits: nat)
    ensures Shift(x * Pow2(bits % 32), bits / 32) == x * Pow2(bits)
  {
    var n, s := bits / 32, bits % 32;
    ShiftIsPow2(x * Pow2(s), n);
    Pow2Add(s, 32 * n);
    assert s + 32 * n == bits;
    Assoc(x, Pow2(s), Pow2(32 * n));
  }

  /** limbShift zero limbs, then the body, then the top limb. */
  lemma ShiftedTotal(out: seq<Limb>, body: seq<Limb>, top: Limb, limbShift: nat, v: int)
    requires |out| == limbShift + |body| + 1 && out[limbShift..|out| - 1] == body && out[|out| - 1] == top
    requires forall k :: 0 <= k < limbShift ==> out[k] == 0
    requires Glue(body, top) == v
    ensures Val(out) == Shift(v, limbShift)
  {
    hide Val, Glue, Shift;
    ValSplit(out, limbShift);
    ValZeros(out[..limbShift]);
    GlueSnoc(body, top, 0);
    assert out[limbShift..] == body + [top];
    GlueZero(body + [top]);
  }

  /** out := a << bits. The whole span of |a| + bits/32 + 1 limbs is cleared first. */
  method ShiftLeft(a: seq<Limb>, bits: nat, out: array<Limb>) returns (n: nat)
    requires a == [] || out.Length >= |a| + bits / 32 + 1
    modifies out
    ensures n <= out.Length && Normalized(out[..n]) && Val(out[..n]) == Val(a) * Pow2(bits)
    ensures a != [] ==> Val(out[..|a| + bits / 32 + 1]) == Val(a) * Pow2(bits)
    ensures forall k {:trigger out[k]} ::
      (a != [] ==> |a| + bits / 32 + 1 <= k) && 0 <= k < out.Length ==> out[k] == old(out[k])
  {
    hide Val, Glue, Pow2, Shift, Or, ShlLimb, ShrLimb, ShlPair;
    if |a| == 0 {
      ValNil(a);
      ValNil(out[..0]);
      return 0;
    }
    var limbShift, bitShift := bits / 32, bits % 32;
    var total := |a| + limbShift + 1;
    forall k | 0 <= k < total { out[k] := 0; }
    if bitShift == 0 {
      forall k | limbShift <= k < limbShift + |a| { out[k] := a[k - limbShift]; }
      assert out[limbShift..total - 1] == a;
      assert out[..total][limbShift..total - 1] == out[limbShift..total - 1];
      GlueZero(a);
      Pow2Zero();
      ShiftedTotal(out[..total], a, 0, limbShift, Val(a));
    } else {
      ShiftBits(a, limbShift, bitShift, out);
    }
    SplitBits(Val(a), bits);
    n := Normalize(out[..total]);
    assert out[..total][..n] == out[..n];
  }

  lemma Pow2Zero()
    ensures Pow2(0) == 1
  {
  }

  /** The bit-shifting loop: each limb is or-ed into place and spills upward. */
  method ShiftBits(a: seq<Limb>, limbShift: nat, bitShift: nat, out: array<Limb>)
    requires 0 < bitShift < 32 && a != [] && out.Length >= |a| + limbShift + 1
    requires forall k :: 0 <= k < |a| + limbShift + 1 ==> out[k] == 0
    modifies out
    ensures Val(out[..|a| + limbShift + 1]) == Shift(Val(a) * Pow2(bitShift), limbShift)
    ensures forall k {:trigger out[k]} :: |a| + limbShift + 1 <= k < out.Length ==> out[k] == old(out[k])
  {
    hide Val, Glue, Pow2, Shift, Or, ShlLimb, ShrLimb, ShlPair;
    var i := 0;
    ghost var done: seq<Limb> := [];
    ShrZero(32 - bitShift);
    while i < |a|
      invariant i <= |a| == |done| + (|a| - i)
      invariant forall k {:trigger out[k]} :: 0 <= k < limbShift ==> out[k] == 0
      invariant out[limbShift..limbShift + i] == done && forall k {:trigger done[k]} ::
        0 <= k < i ==> done[k] == ShlPair(a[k], Under(a, k, 0), bitShift)
      invariant out[limbShift + i] == ShrLimb(Under(a, i, 0), 32 - bitShift)
      invariant forall k {:trigger out[k]} :: |a| + limbShift + 1 <= k < out.Length ==> out[k] == old(out[k])
    {
      hide Val, Glue, Pow2, Shift, Or, ShlLimb, ShrLimb, ShlPair;
      PairIs(a[i], Under(a, i, 0), bitShift);
      ghost var x := ShlPair(a[i], Under(a, i, 0), bitShift);
      assert Under(a, i + 1, 0) == a[i];
      out[limbShift + i] := Or(ShlLimb(a[i], bitShift), out[limbShift + i], Pow2(bitShift));
      out[limbShift + i + 1] := ShrLimb(a[i], 32 - bitShift);
      assert out[limbShift..limbShift + i + 1] == done + [x];
      done := done + [x];
      i := i + 1;
    }
    ghost var o := out[..|a| + limbShift + 1];
    forall k | 0 <= k < |a| ensures o[limbShift + k] == ShlPair(a[k], Under(a, k, 0), bitShift) {
      assert out[limbShift..limbShift + |a|][k] == done[k];
    }
    ShiftedBits(out[..|a| + limbShift + 1], a, limbShift, bitShift);
  }

  lemma ShiftedBits(out: seq<Limb>, a: seq<Limb>, limbShift: nat, bitShift: nat)
    requires 0 < bitShift < 32 && a != [] && |out| == |a| + limbShift + 1
    requires forall k :: 0 <= k < limbShift ==> out[k] == 0
    requires forall k :: 0 <= k < |a| ==> out[limbShift + k] == ShlPair(a[k], Under(a, k, 0), bitShift)
    requires out[limbShift + |a|] == ShrLimb(a[|a| - 1], 32 - bitShift)
    ensures Val(out) == Shift(Val(a) * Pow2(bitShift), limbShift)
  {
    hide Val, Glue, Pow2, Shift, ShrLimb, ShlPair;
    var body := out[limbShift..limbShift + |a|];
    ShlValue(0, a, body, bitShift);
    ShrIs(0, 32 - bitShift);
    ShrZero(32 - bitShift);
    ShrIs(a[|a| - 1], 32 - bitShift);
    ShiftedTotal(out, body, out[limbShift + |a|], limbShift, Val(a) * Pow2(bitShift));
  }

  lemma ShrIs(x: Limb, s: nat)
    ensures ShrLimb(x, s) == x / Pow2(s)
  {
  }

  lemma ShrZero(s: nat)
    ensures ShrLimb(0, s) == 0
  {
  }

  lemma PairIs(hi: Limb, lo: Limb, s: nat)
    requires 0 < s < 32
    ensures var m := Pow2(s);
      && ShlLimb(hi, s) % m == 0 && ShlLimb(hi, s) <= BASE - m && ShrLimb(lo, 32 - s) < m
      && Or(ShlLimb(hi, s), ShrLimb(lo, 32 - s), m) == ShlPair(hi, lo, s)
  {
    Disjoint(hi, lo, s);
  }

  /** One limb of the result: the high bits of lo under the low bits of the limb above, if any. */
  method ShiftRightLimb(u: seq<Limb>, i: nat, s: nat) returns (r: Limb)
    requires 0 < s < 32 && i < |u|
    ensures r == ShrAt(u, i, s)
  {
    hide Pow2, Or, ShlLimb, ShrLimb, ShrPair, ShlPair;
    r := ShrLimb(u[i], s);
    if i + 1 < |u| {
      PairIs(u[i + 1], u[i], 32 - s);
      r := Or(ShlLimb(u[i + 1], 32 - s), r, Pow2(32 - s));
      ShrPairIs(u[i], u[i + 1], s);
    } else {
      ShrTop(u[i], s);
    }
  }

  method ShiftRightBits(a: seq<Limb>, limbShift: nat, bitShift: nat, out: array<Limb>)
    requires limbShift < |a| && 0 < bitShift < 32 && out.Length >= |a|
    modifies out
    ensures forall k {:trigger out[k]} :: 0 <= k < |a| - limbShift ==> out[k] == ShrAt(a[limbShift..], k, bitShift)
    ensures forall k {:trigger out[k]} :: |a| - limbShift <= k < out.Length ==> out[k] == old(out[k])
  {
    var i := 0;
    ghost var u := a[limbShift..];
    while i < |a| - limbShift
      invariant i <= |a| - limbShift
      invariant forall k {:trigger out[k]} :: 0 <= k < i ==> out[k] == ShrAt(u, k, bitShift)
      invariant forall k {:trigger out[k]} :: i <= k < out.Length ==> out[k] == old(out[k])
    {
      hide ShrAt;
      var x := ShiftRightLimb(a[limbShift..], i, bitShift);
      out[i] := x;
      i := i + 1;
    }
  }

  /** How many limbs bits of a shift leave. */
  function LimbsLeft(a: seq<Limb>, bits: nat): nat
  {
    if bits / 32 < |a| then |a| - bits / 32 else 0
  }

  /** out := a >> bits. */
  method ShiftRight(a: seq<Limb>, bits: nat, out: array<Limb>) returns (n: nat)
    requires out.Length >= |a|
    modifies out
    ensures n <= |a| && Normalized(out[..n]) && Val(out[..n]) == Val(a) / Pow2(bits)
    ensures forall k {:trigger out[k]} :: n <= k < LimbsLeft(a, bits) ==> out[k] == 0
    ensures forall k {:trigger out[k]} :: LimbsLeft(a, bits) <= k < out.Length ==> out[k] == old(out[k])
  {
    hide Val, Glue, Pow2, Shift, Or, ShlLimb, ShrLimb, ShrPair;
    var limbShift := bits / 32;
    if |a| == 0 || limbShift >= |a| {
      ValNil(out[..0]);
      ShiftedAway(a, bits);
      return 0;
    }
    var bitShift := bits % 32;
    var total := |a| - limbShift;
    ghost var u := a[limbShift..];
    if bitShift == 0 {
      forall k | 0 <= k < total { out[k] := a[limbShift + k]; }
      assert out[..total] == u;
      Pow2Zero();
      DroppedBits(a, bits, Val(u), 0);
    } else {
      ShiftRightBits(a, limbShift, bitShift, out);
      ShrValue(u, out[..total], bitShift);
      DroppedBits(a, bits, Val(out[..total]), u[0] % Pow2(bitShift));
    }
    n := Normalize(out[..total]);
    assert out[..total][..n] == out[..n];
  }

  lemma ShrPairIs(lo: Limb, hi: Limb, s: nat)
    requires 0 < s < 32
    ensures ShrPair(lo, hi, s) == ShlPair(hi, lo, 32 - s)
  {
  }

  lemma ShrTop(lo: Limb, s: nat)
    requires 0 < s < 32
    ensures ShrLimb(lo, s) == ShrPair(lo, 0, s)
  {
    assert (0 * Pow2(32 - s)) % BASE == 0;
  }

  /** Everything below 2^bits shifts away. */
  lemma ShiftedAway(a: seq<Limb>, bits: nat)
    requires bits / 32 >= |a|
    ensures Val(a) / Pow2(bits) == 0
  {
    hide Val, Shift, Pow2;
    ValBound(a);
    ShiftIsPow2(1, |a|);
    Pow2Mono(32 * |a|, bits);
    DivUnique(Val(a), 0, Val(a), Pow2(bits));
  }

  /** a = (kept * 2^s + low bits) * BASE^n + low limbs, so a / 2^bits = kept. */
  lemma DroppedBits(a: seq<Limb>, bits: nat, kept: nat, low: nat)
    requires bits / 32 <= |a|
    requires Val(a[bits / 32..]) == kept * Pow2(bits % 32) + low && low < Pow2(bits % 32)
    ensures Val(a) / Pow2(bits) == kept
  {
    hide Val, Shift, Pow2;
    var n, s := bits / 32, bits % 32;
    ValSplit(a, n);
    ValBound(a[..n]);
    ShiftAdd(kept * Pow2(s), low, n);
    SplitBits(kept, bits);
    SplitBits(1, bits);
    ShiftNonneg(low, n);
    ShiftAdd(low, 1, n);
    ShiftMono(low + 1, Pow2(s), n);
    ShiftMono(Pow2(s), low + 1, n);
    DivUnique(Val(a), kept, Val(a[..n]) + Shift(low, n), Pow2(bits));
  }

  // ----- divisibility -----

  ghost predicate Divides(d: nat, x: nat)
  {
    exists k: nat :: Prod(k, d) == x
  }

  /** The greatest common divisor, in the order of divisibility. */
  ghost predicate IsGcd(g: nat, x: nat, y: nat)
  {
    && Divides(g, x) && Divides(g, y)
    && forall d: nat :: Divides(d, x) && Divides(d, y) ==> Divides(d, g)
  }

  /** The pairs (x, y) and (x', y') have the same common divisors. */
  ghost predicate SameDivisors(x: nat, y: nat, x': nat, y': nat)
  {
    forall d: nat :: (Divides(d, x) && Divides(d, y)) <==> (Divides(d, x') && Divides(d, y'))
  }

  lemma DividesIntro(k: nat, d: nat, x: nat)
    requires k * d == x
    ensures Divides(d, x)
  {
    assert Prod(k, d) == x;
  }

  lemma DividesSum(d: nat, x: nat, y: nat)
    requires Divides(d, x) && Divides(d, y)
    ensures Divides(d, x + y) && (x <= y ==> Divides(d, y - x))
  {
    var j: nat, k: nat :| Prod(j, d) == x && Prod(k, d) == y;
    Distribute(j, k, d);
    DividesIntro(j + k, d, x + y);
    if x <= y {
      if k < j {
        MulMono(k, j, d);
        DividesIntro(0, d, y - x);
      } else {
        Distribute(k, j, d);
        DividesIntro(k - j, d, y - x);
      }
    }
  }

  lemma DividesTimes(d: nat, m: nat, x: nat)
    requires Divides(d, x)
    ensures Divides(d, m * x) && Divides(d, x * m)
  {
    var k: nat :| Prod(k, d) == x;
    Assoc(m, k, d);
    MulMono(0, m, k);
    DividesIntro(m * k, d, m * x);
  }

  /** Subtracting keeps the common divisors. */
  lemma SubtractKeeps(u: nat, v: nat)
    requires u <= v
    ensures SameDivisors(u, v, u, v - u)
  {
    forall d: nat ensures (Divides(d, u) && Divides(d, v)) <==> (Divides(d, u) && Divides(d, v - u)) {
      if Divides(d, u) && Divides(d, v) { DividesSum(d, u, v); }
      if Divides(d, u) && Divides(d, v - u) { DividesSum(d, u, v - u); }
    }
  }

  lemma {:induction false} OddProd(j: nat, d: nat)
    ensures Prod(j, d) % 2 == if j % 2 == 0 then 0 else d % 2
    decreases j
  {
    hide Prod;
    if j >= 2 {
      OddProd(j - 2, d);
      ProdLess(j, d);
    } else {
      ProdSmall(j, d);
    }
  }

  lemma ProdLess(j: nat, d: nat)
    ensures Prod(j, d) == Prod(j - 2, d) + 2 * d
  {
    Distribute(j, 2, d);
  }

  lemma ProdSmall(j: nat, d: nat)
    requires j < 2
    ensures Prod(j, d) == if j == 0 then 0 else d
  {
  }

  lemma OddProduct(j: nat, d: nat)
    ensures (j * d) % 2 == ((j % 2) * (d % 2)) % 2
  {
    hide Prod;
    OddProd(j, d);
    ProdIs(j, d);
  }

  lemma OddHalf(d: nat, x: nat)
    requires d % 2 == 1 && Divides(d, 2 * x)
    ensures Divides(d, x)
  {
    var k: nat :| Prod(k, d) == 2 * x;
    OddProduct(k, d);
    var h := k / 2;
    assert k == 2 * h;
    DoubleMul(h, d);
    DividesIntro(h, d, x);
  }

  lemma DivisorOfOdd(d: nat, x: nat)
    requires x % 2 == 1 && Divides(d, x)
    ensures d % 2 == 1
  {
    var k: nat :| Prod(k, d) == x;
    OddProduct(k, d);
  }

  lemma {:induction false} OddPow2(d: nat, x: nat, k: nat)
    requires d % 2 == 1 && Divides(d, x * Pow2(k))
    ensures Divides(d, x)
  {
    if k > 0 {
      DoubleMul(Pow2(k - 1), x);
      MulMono(0, x, Pow2(k - 1));
      OddHalf(d, x * Pow2(k - 1));
      OddPow2(d, x, k - 1);
    }
  }

  /** Shifting the twos out of one operand keeps the common divisors with an odd one. */
  lemma TwosKeep(u: nat, v: nat, k: nat)
    requires u % 2 == 1
    ensures 0 <= v * Pow2(k) && SameDivisors(u, v * Pow2(k), u, v)
  {
    MulMono(0, v, Pow2(k));
    forall d: nat ensures (Divides(d, u) && Divides(d, v * Pow2(k))) <==> (Divides(d, u) && Divides(d, v)) {
      if Divides(d, u) {
        DivisorOfOdd(d, u);
        if Divides(d, v * Pow2(k)) { OddPow2(d, v, k); }
        if Divides(d, v) { DividesTimes(d, Pow2(k), v); }
      }
    }
  }

  /** Common divisors of 2^c*x and 2^c*y divide 2^c*g, when those of x and y divide g. */
  lemma {:induction false} CommonTwos(d: nat, x: nat, y: nat, g: nat, c: nat)
    requires forall e: nat :: Divides(e, x) && Divides(e, y) ==> Divides(e, g)
    requires 0 <= x * Pow2(c) && 0 <= y * Pow2(c) && 0 <= g * Pow2(c)
    requires Divides(d, x * Pow2(c)) && Divides(d, y * Pow2(c))
    ensures Divides(d, g * Pow2(c))
    decreases c
  {
    if c > 0 {
      var p := Pow2(c - 1);
      MulMono(0, x, p);
      MulMono(0, y, p);
      MulMono(0, g, p);
      DoubleMul(p, x);
      DoubleMul(p, y);
      DoubleMul(p, g);
      hide Pow2, Divides;
      if d % 2 == 1 {
        OddHalf(d, x * p);
        OddHalf(d, y * p);
        CommonTwos(d, x, y, g, c - 1);
        DividesTimes(d, 2, g * p);
      } else {
        var e := d / 2;
        HalfDivides(e, x * p);
        HalfDivides(e, y * p);
        CommonTwos(e, x, y, g, c - 1);
        HalfDivides(e, g * p);
      }
    }
  }

  lemma HalfDivides(e: nat, x: nat)
    ensures Divides(2 * e, 2 * x) <==> Divides(e, x)
  {
    if Divides(2 * e, 2 * x) {
      var k: nat :| Prod(k, 2 * e) == 2 * x;
      DoubleMul(e, k);
      DividesIntro(k, e, x);
    }
    if Divides(e, x) {
      var k: nat :| Prod(k, e) == x;
      DoubleMul(e, k);
      DividesIntro(k, 2 * e, 2 * x);
    }
  }

  // ----- the lowest set bit -----

  /** 1-based position of the lowest set bit; 0 for zero. */
  method LowBit(a: seq<Limb>) returns (l: nat, ghost odd: nat)
    ensures Val(a) == 0 ==> l == 0
    ensures Val(a) != 0 ==> l >= 1 && odd % 2 == 1 && Val(a) == odd * Pow2(l - 1)
  {
    hide Val, Pow2, Shift;
    odd := 0;
    var i := 0;
    while i < |a|
      invariant i <= |a|
      invariant forall k :: 0 <= k < i ==> a[k] == 0
    {
      hide Val, Pow2, Shift;
      if a[i] != 0 {
        var limb, bit := a[i], 1;
        Pow2Zero();
        while limb % 2 == 0
          invariant bit >= 1 && 0 < limb && a[i] == limb * Pow2(bit - 1)
          decreases limb
        {
          Halve(limb, bit - 1);
          limb := limb / 2;
          bit := bit + 1;
        }
        odd := LowBitValue(a, i, limb, bit - 1);
        return i * 32 + bit, odd;
      }
      i := i + 1;
    }
    ValZeros(a);
    return 0, 0;
  }

  lemma Halve(limb: int, k: nat)
    requires limb % 2 == 0
    ensures limb * Pow2(k) == (limb / 2) * Pow2(k + 1)
  {
    var h := limb / 2;
    assert limb == 2 * h;
    DoubleMul(Pow2(k), h);
    DoubleMul(h, Pow2(k));
  }

  lemma LowBitValue(a: seq<Limb>, i: nat, limb: nat, k: nat) returns (odd: nat)
    requires i < |a| && (forall j :: 0 <= j < i ==> a[j] == 0) && limb % 2 == 1 && a[i] == limb * Pow2(k)
    ensures odd % 2 == 1 && Val(a) == odd * Pow2(32 * i + k) && Val(a) != 0
  {
    hide Val, Shift, Pow2;
    var rest := Val(a[i + 1..]);
    ValSplit(a, i);
    ValZeros(a[..i]);
    ValHead(a, i);
    LimbTwos(limb, k);
    var half := Pow2(31 - k);
    MulMono(0, half, rest);
    odd := limb + 2 * (half * rest);
    Complement(k);
    Pow2Twice(31 - k);
    LowArith(limb, rest, half, Pow2(k));
    ShiftIsPow2(odd * Pow2(k), i);
    Pow2Add(k, 32 * i);
    Assoc(odd, Pow2(k), Pow2(32 * i));
    MulMono(1, odd, Pow2(32 * i + k));
  }

  lemma LowArith(limb: int, rest: int, half: int, m: int)
    requires m * (2 * half) == BASE
    ensures (limb + 2 * (half * rest)) * m == limb * m + BASE * rest
  {
    Distribute(limb, 2 * (half * rest), m);
    DoubleMul(half, rest);
    Assoc(rest, 2 * half, m);
  }

  lemma Pow2Twice(k: nat)
    ensures Pow2(k + 1) == 2 * Pow2(k)
  {
  }

  lemma LimbTwos(limb: nat, k: nat)
    requires limb >= 1 && limb * Pow2(k) < BASE
    ensures k < 32
  {
    MulMono(1, limb, Pow2(k));
    if k >= 32 {
      Pow2Limb();
      Pow2Mono(32, k);
    }
  }

  // ----- the gcd -----

  /** The odd part of a, in t and copied back to a's buffer; answers its length and the
      number of twos removed. */
  method OddPart(w: array<Limb>, n0: nat, t: array<Limb>) returns (n: nat, twos: nat)
    requires n0 <= w.Length && n0 <= t.Length && w != t && Val(w[..n0]) != 0
    modifies w, t
    ensures n <= n0 && Normalized(w[..n]) && Val(w[..n]) % 2 == 1
    ensures Val(old(w[..n0])) == Val(w[..n]) * Pow2(twos)
  {
    hide Val, Pow2;
    ghost var w0 := w[..n0];
    var l, odd := LowBit(w[..n0]);
    twos := l - 1;
    n := ShiftRight(w[..n0], twos, t);
    DivUnique(Val(w0), odd, 0, Pow2(twos));
    ghost var shifted := t[..n];
    assert Val(shifted) == odd;
    forall k | 0 <= k < n { w[k] := t[k]; }
    assert w[..n] == shifted;
  }

  /** Stein's loop: both operands odd, the smaller subtracted from the larger and the
      twos shifted out of the difference, until they meet at the gcd. */
  method Stein(u0: array<Limb>, nu0: nat, v0: array<Limb>, nv0: nat, t: array<Limb>) returns (g: seq<Limb>)
    requires u0 != v0 && u0 != t && v0 != t && u0.Length == v0.Length == t.Length
    requires nu0 <= u0.Length && nv0 <= v0.Length
    requires Normalized(u0[..nu0]) && Normalized(v0[..nv0])
    requires Val(u0[..nu0]) % 2 == 1 && Val(v0[..nv0]) % 2 == 1
    modifies u0, v0, t
    ensures Normalized(g) && IsGcd(Val(g), Val(old(u0[..nu0])), Val(old(v0[..nv0])))
  {
    hide Val, Pow2, Divides, SameDivisors, IsGcd;
    var u, v := u0, v0;
    var nu: nat, nv: nat := nu0, nv0;
    ghost var x, y := Val(u0[..nu0]), Val(v0[..nv0]);
    SameRefl(x, y);
    while true
      invariant (u == u0 && v == v0) || (u == v0 && v == u0)
      invariant nu <= u.Length && nv <= v.Length
      invariant Normalized(u[..nu]) && Normalized(v[..nv])
      invariant Val(u[..nu]) % 2 == 1 && Val(v[..nv]) % 2 == 1
      invariant SameDivisors(x, y, Val(u[..nu]), Val(v[..nv]))
      decreases Val(u[..nu]) + Val(v[..nv])
    {
      hide Val, Pow2, Divides, SameDivisors, IsGcd;
      var c := Compare(u[..nu], v[..nv]);
      SameSwap(x, y, Val(u[..nu]), Val(v[..nv]));
      if c > 0 {
        u, v := v, u;
        nu, nv := nv, nu;
      }
      ghost var vv := Val(v[..nv]);
      var met;
      met, nv := Round(u, nu, v, nv, t);
      if met {
        SelfGcd(x, y, Val(u[..nu]));
        return u[..nu];
      }
      SameTrans(x, y, Val(u[..nu]), vv, Val(v[..nv]));
    }
  }

  lemma SameRefl(x: nat, y: nat)
    ensures SameDivisors(x, y, x, y)
  {
  }

  lemma SameSwap(x: nat, y: nat, u: nat, v: nat)
    requires SameDivisors(x, y, u, v)
    ensures SameDivisors(x, y, v, u)
  {
  }

  lemma SameTrans(x: nat, y: nat, u: nat, v: nat, w: nat)
    requires SameDivisors(x, y, u, v) && SameDivisors(u, v, u, w)
    ensures SameDivisors(x, y, u, w)
  {
  }

  /** v := (v - u) without its twos, unless the operands have met. */
  method Round(u: array<Limb>, nu: nat, v: array<Limb>, nv0: nat, t: array<Limb>) returns (met: bool, nv: nat)
    requires u != v && u != t && v != t && nu <= u.Length && nv0 <= v.Length <= t.Length
    requires Normalized(u[..nu]) && Normalized(v[..nv0]) && Val(u[..nu]) <= Val(v[..nv0])
    requires Val(u[..nu]) % 2 == 1 && Val(v[..nv0]) % 2 == 1
    modifies v, t
    ensures met ==> Val(u[..nu]) == Val(old(v[..nv0]))
    ensures !met ==> nv <= v.Length && Normalized(v[..nv]) && Val(v[..nv]) % 2 == 1 && Val(v[..nv]) < Val(old(v[..nv0]))
    ensures !met ==> SameDivisors(Val(u[..nu]), Val(old(v[..nv0])), Val(u[..nu]), Val(v[..nv]))
  {
    hide Val, Pow2, Divides, SameDivisors;
    ghost var vu, vv := Val(u[..nu]), Val(v[..nv0]);
    var nt := Sub(v[..nv0], u[..nu], t);
    if nt == 0 {
      ValNil(t[..0]);
      return true, nv0;
    }
    ghost var diff := t[..nt];
    Positive(diff);
    var l, odd := LowBit(t[..nt]);
    nv := ShiftRight(t[..nt], l - 1, v);
    DivUnique(Val(diff), odd, 0, Pow2(l - 1));
    assert Val(v[..nv]) == odd;
    SteinStep(vu, vv, odd, l - 1);
    met := false;
  }

  /** One round: the common divisors stay, and the larger operand at least halves. */
  lemma SteinStep(u: nat, v: nat, odd: nat, k: nat)
    requires u % 2 == 1 && v % 2 == 1 && u < v && v - u == odd * Pow2(k)
    ensures SameDivisors(u, v, u, odd) && odd < v
  {
    hide Divides;
    SubtractKeeps(u, v);
    TwosKeep(u, odd, k);
    MulMono(1, Pow2(k), odd);
  }

  /** When the operands meet, their common value is the gcd. */
  lemma SelfGcd(x: nat, y: nat, g: nat)
    requires SameDivisors(x, y, g, g)
    ensures IsGcd(g, x, y)
  {
    hide Divides;
    DividesIntro(1, g, g);
  }

  /** The gcd of a and b is the odd number g, shifted left by c. */
  ghost predicate OddGcd(a: seq<Limb>, b: seq<Limb>, g: seq<Limb>, c: nat)
  {
    Normalized(g) && Val(g) % 2 == 1 && 0 <= Val(g) * Pow2(c) && IsGcd(Val(g) * Pow2(c), Val(a), Val(b))
  }

  /** cap limbs hold everything bigIntGcd writes: the span that the last shift clears. */
  ghost predicate GcdFitsIn(a: seq<Limb>, b: seq<Limb>, cap: nat)
  {
    if a == [] then |b| <= cap
    else if b == [] then |a| <= cap
    else forall g, c: nat {:trigger OddGcd(a, b, g, c)} :: OddGcd(a, b, g, c) ==> |g| + c / 32 + 1 <= cap
  }

  /** The gcd of nonzero operands before its twos are put back. */
  method OddGcdOf(a: seq<Limb>, b: seq<Limb>) returns (odd: seq<Limb>, common: nat)
    requires Normalized(a) && Normalized(b) && a != [] && b != []
    ensures OddGcd(a, b, odd, common)
  {
    hide Val, Pow2, Divides, IsGcd;
    Positive(a);
    Positive(b);
    var cap := Max(|a|, |b|) + 1;
    var u := new Limb[cap](_ => 0);
    var v := new Limb[cap](_ => 0);
    var t := new Limb[cap](_ => 0);
    forall k | 0 <= k < |a| { u[k] := a[k]; }
    forall k | 0 <= k < |b| { v[k] := b[k]; }
    assert u[..|a|] == a && v[..|b|] == b;
    var nu, shiftU := OddPart(u, |a|, t);
    var nv, shiftV := OddPart(v, |b|, t);
    common := Min(shiftU, shiftV);
    ghost var x, y := Val(u[..nu]), Val(v[..nv]);
    odd := Stein(u, nu, v, nv, t);
    GcdTwos(Val(odd), x, shiftU, y, shiftV);
    OddDivisor(Val(odd), x, y);
  }

  /** Limb by limb, the operands' gcd is in out whatever out held: cap is what is needed, and
      nothing past it is touched. */
  method Gcd(a: seq<Limb>, b: seq<Limb>, out: array<Limb>) returns (n: nat, ghost g: seq<Limb>, ghost c: nat)
    requires Normalized(a) && Normalized(b) && GcdFitsIn(a, b, out.Length)
    modifies out
    ensures n <= out.Length && Normalized(out[..n]) && IsGcd(Val(out[..n]), Val(a), Val(b))
    ensures a != [] && b != [] ==>
      OddGcd(a, b, g, c) && |g| + c / 32 + 1 <= out.Length && Val(out[..|g| + c / 32 + 1]) == Val(out[..n])
    ensures a != [] && b != [] ==> forall k {:trigger out[k]} ::
      |g| + c / 32 + 1 <= k < out.Length ==> out[k] == old(out[k])
  {
    g, c := [], 0;
    hide Val, Pow2, Divides, IsGcd;
    if |a| == 0 {
      forall k | 0 <= k < |b| { out[k] := b[k]; }
      assert out[..|b|] == b;
      ValNil(a);
      ZeroGcd(Val(b));
      return |b|, [], 0;
    }
    if |b| == 0 {
      forall k | 0 <= k < |a| { out[k] := a[k]; }
      assert out[..|a|] == a;
      ValNil(b);
      ZeroGcd(Val(a));
      return |a|, [], 0;
    }
    var odd, common := OddGcdOf(a, b);
    g, c := odd, common;
    ValNil([]);
    n := ShiftLeft(odd, common, out);
  }

  /** A divisor of an odd number is odd. */
  lemma OddDivisor(g: nat, x: nat, y: nat)
    requires IsGcd(g, x, y) && x % 2 == 1
    ensures g % 2 == 1
  {
    var k: nat :| Prod(k, g) == x;
    OddProd(k, g);
  }

  lemma GcdUnique(g: nat, h: nat, x: nat, y: nat)
    requires IsGcd(g, x, y) && IsGcd(h, x, y)
    ensures g == h
  {
    if g > 0 && h > 0 {
      DividesLe(g, h);
      DividesLe(h, g);
    } else if g > 0 {
      DividesLe2(h, g);
    } else if h > 0 {
      DividesLe2(g, h);
    }
  }

  /** Zero divides only zero. */
  lemma DividesLe2(d: nat, x: nat)
    requires Divides(d, x) && d == 0
    ensures x == 0
  {
    var k: nat :| Prod(k, d) == x;
    ProdIs(k, 0);
  }

  lemma OddPartUnique(x: nat, i: nat, y: nat, j: nat)
    requires x % 2 == 1 && y % 2 == 1 && i <= j && x * Pow2(i) == y * Pow2(j)
    ensures x == y && i == j
  {
    hide Pow2;
    Pow2Add(j - i, i);
    Assoc(y, Pow2(j - i), Pow2(i));
    Cancel(x, y * Pow2(j - i), Pow2(i));
    EvenShift(y, j - i);
  }

  lemma Cancel(x: int, z: int, p: nat)
    requires p >= 1 && x * p == z * p
    ensures x == z
  {
    if x < z { MulMono(x + 1, z, p); Distribute(x, 1, p); }
    if z < x { MulMono(z + 1, x, p); Distribute(z, 1, p); }
  }

  lemma EvenShift(y: nat, d: nat)
    ensures if d == 0 then y * Pow2(d) == y else (y * Pow2(d)) % 2 == 0
  {
    if d > 0 {
      DoubleMul(Pow2(d - 1), y);
      assert y * Pow2(d) == 2 * (Pow2(d - 1) * y);
    }
  }

  lemma OddGcdUnique(a: seq<Limb>, b: seq<Limb>, g: seq<Limb>, c: nat, g': seq<Limb>, c': nat)
    requires OddGcd(a, b, g, c) && OddGcd(a, b, g', c')
    ensures g == g' && c == c'
  {
    hide Val, Pow2, IsGcd;
    GcdUnique(Val(g) * Pow2(c), Val(g') * Pow2(c'), Val(a), Val(b));
    if c <= c' { OddPartUnique(Val(g), c, Val(g'), c'); } else { OddPartUnique(Val(g'), c', Val(g), c); }
    NormalizedUnique(g, g');
  }

  /** One limb more than the shorter operand always suffices. */
  lemma OneMoreSuffices(a: seq<Limb>, b: seq<Limb>)
    requires Normalized(a) && Normalized(b)
    ensures GcdFitsIn(a, b, if a == [] then |b| else if b == [] then |a| else Min(|a|, |b|) + 1)
  {
    hide Val, Pow2, IsGcd;
    if a != [] && b != [] {
      Positive(a);
      Positive(b);
      forall g, c: nat | OddGcd(a, b, g, c) ensures |g| + c / 32 <= Min(|a|, |b|) {
        GcdFits(g, a, b, c);
        ValNil([]);
      }
    }
  }

  /** The documented min(na, nb) limbs suffice, for nonzero operands, exactly if the odd part of
      the gcd and the whole limbs of its shift are shorter than both. */
  lemma MinSuffices(a: seq<Limb>, b: seq<Limb>, g: seq<Limb>, c: nat)
    requires a != [] && b != [] && OddGcd(a, b, g, c)
    ensures GcdFitsIn(a, b, Min(|a|, |b|)) <==> |g| + c / 32 < Min(|a|, |b|)
  {
    hide OddGcd;
    forall g', c': nat | OddGcd(a, b, g', c') ensures g' == g && c' == c { OddGcdUnique(a, b, g, c, g', c'); }
  }

  /** They do not for 1 and 1. */
  lemma MinTooSmall()
    ensures Normalized([1]) && !GcdFitsIn([1], [1], Min(1, 1))
  {
    assert Val([1]) == 1 && [1][1..] == [];
    DividesIntro(1, 1, 1);
    assert IsGcd(1, 1, 1);
    assert OddGcd([1], [1], [1], 0);
  }

  lemma ZeroGcd(x: nat)
    ensures IsGcd(x, 0, x) && IsGcd(x, x, 0)
  {
    DividesIntro(1, x, x);
    DividesIntro(0, x, 0);
  }

  /** gcd(x*2^i, y*2^j) = gcd(x, y)*2^min(i, j) for odd x and y. */
  lemma GcdTwos(g: nat, x: nat, i: nat, y: nat, j: nat)
    requires x % 2 == 1 && y % 2 == 1 && IsGcd(g, x, y)
    ensures 0 <= g * Pow2(Min(i, j)) && 0 <= x * Pow2(i) && 0 <= y * Pow2(j)
    ensures IsGcd(g * Pow2(Min(i, j)), x * Pow2(i), y * Pow2(j))
  {
    var c := Min(i, j);
    MulMono(0, x, Pow2(i));
    MulMono(0, y, Pow2(j));
    MulMono(0, g, Pow2(c));
    MulMono(0, x, Pow2(i - c));
    MulMono(0, y, Pow2(j - c));
    var x', y' := x * Pow2(i - c), y * Pow2(j - c);
    Pow2Add(i - c, c);
    Assoc(x, Pow2(i - c), Pow2(c));
    Pow2Add(j - c, c);
    Assoc(y, Pow2(j - c), Pow2(c));
    DividesTimes(g, Pow2(i - c), x);
    DividesTimes(g, Pow2(j - c), y);
    ScaleDivides(g, x', Pow2(c));
    ScaleDivides(g, y', Pow2(c));
    OneOdd(g, x, i - c, y, j - c);
    forall d: nat | Divides(d, x' * Pow2(c)) && Divides(d, y' * Pow2(c)) ensures Divides(d, g * Pow2(c)) {
      CommonTwos(d, x', y', g, c);
    }
  }

  lemma ScaleDivides(g: nat, x: nat, m: nat)
    requires Divides(g, x)
    ensures 0 <= g * m && 0 <= x * m && Divides(g * m, x * m)
  {
    var k: nat :| Prod(k, g) == x;
    Assoc(k, g, m);
    MulMono(0, g, m);
    MulMono(0, x, m);
    DividesIntro(k, g * m, x * m);
  }

  /** With one of the two left odd, extra twos on the other add no common divisor. */
  lemma OneOdd(g: nat, x: nat, i: nat, y: nat, j: nat)
    requires x % 2 == 1 && y % 2 == 1 && IsGcd(g, x, y) && (i == 0 || j == 0)
    ensures 0 <= x * Pow2(i) && 0 <= y * Pow2(j)
    ensures forall d: nat :: Divides(d, x * Pow2(i)) && Divides(d, y * Pow2(j)) ==> Divides(d, g)
  {
    TwosKeep(x, y, j);
    TwosKeep(y, x, i);
    assert i == 0 ==> x * Pow2(i) == x;
    assert j == 0 ==> y * Pow2(j) == y;
  }

  /** The gcd divides both operands, so the shifted result and the limb above it fit one
      limb more than the shorter operand. */
  lemma GcdFits(g: seq<Limb>, a: seq<Limb>, b: seq<Limb>, c: nat)
    requires Normalized(g) && Val(a) > 0 && Val(b) > 0
    requires 0 <= Val(g) * Pow2(c) && IsGcd(Val(g) * Pow2(c), Val(a), Val(b))
    ensures g != [] ==> |g| + c / 32 <= Min(|a|, |b|)
  {
    DividesLe(Val(g) * Pow2(c), Val(a));
    DividesLe(Val(g) * Pow2(c), Val(b));
    if g != [] {
      ShiftedLength(g, c, a);
      ShiftedLength(g, c, b);
    }
  }

  lemma DividesLe(d: nat, x: nat)
    requires Divides(d, x) && x > 0
    ensures d <= x
  {
    var k: nat :| Prod(k, d) == x;
    MulMono(1, k, d);
  }

  lemma ShiftedLength(g: seq<Limb>, c: nat, a: seq<Limb>)
    requires g != [] && Normalized(g) && Val(g) * Pow2(c) <= Val(a)
    ensures |g| + c / 32 <= |a|
  {
    hide Val, Shift, Pow2;
    var n, s := c / 32, c % 32;
    SplitBits(Val(g), c);
    MulMono(1, Pow2(s), Val(g));
    ShiftMono(Val(g) * Pow2(s), Val(g), n);
    ValTop(g);
    ShiftMono(Val(g), Shift(1, |g| - 1), n);
    ShiftShift(1, |g| - 1, n);
    ValBound(a);
    if |a| < |g| + n {
      ShiftGrows(1, |a|, |g| - 1 + n);
    }
  }
}
