/** Division kernels of vm/runtime/BigInt.c: Knuth's Algorithm D (The Art of Computer
    Programming, volume 2, section 4.3.1) and the single-limb path. */
module BigIntDiv {
  import opened Limbs
  import opened BigIntMul
  import opened BigIntShift

  /** A 64-bit product; calling it is an obligation that the product fits. */
  function Mul64(x: U64, y: U64): (r: U64)
    requires Prod(x, y) < 0x1_0000_0000_0000_0000
    ensures r == Prod(x, y)
  {
    MulMono(0, x, y);
    x * y
  }

  function Quot(x: int, y: int): int
    requires y > 0
  {
    x / y
  }

  function Rem(x: int, y: int): int
    requires y > 0
  {
    x % y
  }

  // ----- the quotient estimate, over plain integers -----
  // The dividend window is W = wlo + (num*BASE + u2)*P and the divisor is
  // V = vlo + (vtop*BASE + v2)*P, where P is the weight of the limbs left out.

  ghost predicate Window(W: int, V: int, P: int, num: int, u2: int, vtop: int, v2: int, wlo: int, vlo: int)
  {
    && P >= 1 && 0 <= wlo < P && 0 <= vlo < P && 0 <= u2 < BASE && 0 <= v2 < BASE
    && BASE / 2 <= vtop < BASE && 0 <= num
    && W == wlo + Prod(num * BASE + u2, P)
    && V == vlo + Prod(vtop * BASE + v2, P)
  }

  /** The estimate never starts too small. */
  lemma EstimateStart(W: int, V: int, P: int, num: int, u2: int, vtop: int, v2: int, wlo: int, vlo: int)
    requires Window(W, V, P, num, u2, vtop, v2, wlo, vlo)
    ensures W < Prod(Quot(num, vtop) + 1, V)
  {
    var q := Quot(num, vtop) + 1;
    Distribute(num / vtop, 1, vtop);
    TopTimes(q, vtop, v2);
    MulMono(0, v2, q);
    TimesWeight(W, V, P, num * BASE + u2, vtop * BASE + v2, wlo, vlo, q);
  }

  lemma TopTimes(q: int, vtop: int, v2: int)
    ensures q * (vtop * BASE + v2) == (q * vtop) * BASE + q * v2
  {
    Distribute(vtop * BASE, v2, q);
    MulBase(vtop, q);
  }

  lemma TimesWeight(W: int, V: int, P: int, n: int, top: int, wlo: int, vlo: int, q: int)
    requires P >= 1 && wlo < P && 0 <= vlo && W == wlo + Prod(n, P) && V == vlo + Prod(top, P)
    requires q >= 0 && n + 1 <= q * top
    ensures W < Prod(q, V)
  {
    MulMono(n + 1, q * top, P);
    Distribute(n, 1, P);
    Assoc(q, top, P);
    Distribute(vlo, top * P, q);
    MulMono(0, q, vlo);
  }

  /** The two-limb test only fires on an estimate that is too large. */
  lemma TestTooLarge(W: int, V: int, P: int, num: int, u2: int, vtop: int, v2: int, wlo: int, vlo: int, qhat: int,
      rhat: int)
    requires Window(W, V, P, num, u2, vtop, v2, wlo, vlo)
    requires qhat >= 0 && rhat + Prod(qhat, vtop) == num && Prod(qhat, v2) > rhat * BASE + u2
    ensures W < Prod(qhat, V)
  {
    TopTimes(qhat, vtop, v2);
    TimesWeight(W, V, P, num * BASE + u2, vtop * BASE + v2, wlo, vlo, qhat);
  }

  /** An estimate that passes the test is at most one too large. */
  lemma TestPassed(W: int, V: int, P: int, num: int, u2: int, vtop: int, v2: int, wlo: int, vlo: int, qhat: int,
      rhat: int)
    requires Window(W, V, P, num, u2, vtop, v2, wlo, vlo)
    requires 0 <= qhat < BASE && rhat + Prod(qhat, vtop) == num && Prod(qhat, v2) <= rhat * BASE + u2
    ensures Prod(qhat, V) < W + V
  {
    var top := vtop * BASE + v2;
    TopTimes(qhat, vtop, v2);
    MulMono(qhat * top, num * BASE + u2, P);
    Distribute(vlo, top * P, qhat);
    Assoc(qhat, top, P);
    MulMono(qhat, BASE - 1, vlo);
    MulMono(BASE, top, P);
  }

  /** The corrected estimate of one quotient digit: exact or one too large. */
  method Estimate(utop: Limb, u1: Limb, u2: Limb, vtop: Limb, v2: Limb,
      ghost W: int, ghost V: int, ghost P: int, ghost wlo: int, ghost vlo: int) returns (qhat: U64)
    requires Window(W, V, P, utop * BASE + u1, u2, vtop, v2, wlo, vlo)
    requires utop <= vtop && W < BASE * V
    ensures qhat < BASE && Prod(qhat, V) < W + V && W < Prod(qhat + 1, V)
  {
    hide Prod, Window, Quot, Rem;
    var numerator: U64 := utop * BASE + u1;
    WindowTop(W, V, P, numerator, u2, vtop, v2, wlo, vlo);
    EstimateSize(numerator, vtop);
    qhat := Quot(numerator, vtop);
    var rhat: U64 := Rem(numerator, vtop);
    EstimateStart(W, V, P, numerator, u2, vtop, v2, wlo, vlo);
    while qhat >= BASE || (Fits(qhat, v2); Mul64(qhat, v2) > rhat * BASE + u2)
      invariant 0 <= qhat <= BASE + 1 && rhat < BASE && rhat + Prod(qhat, vtop) == numerator
      invariant W < Prod(qhat + 1, V)
      decreases qhat
    {
      hide Prod, Window, Quot, Rem;
      if qhat < BASE {
        TestTooLarge(W, V, P, numerator, u2, vtop, v2, wlo, vlo, qhat, rhat);
      }
      Decrement(W, V, vtop, qhat);
      qhat := qhat - 1;
      rhat := rhat + vtop;
      if rhat >= BASE {
        SmallAfterBreak(numerator, vtop, v2, qhat, rhat);
        break;
      }
    }
    TestPassed(W, V, P, numerator, u2, vtop, v2, wlo, vlo, qhat, rhat);
  }

  lemma WindowTop(W: int, V: int, P: int, num: int, u2: int, vtop: int, v2: int, wlo: int, vlo: int)
    requires Window(W, V, P, num, u2, vtop, v2, wlo, vlo)
    ensures BASE / 2 <= vtop < BASE && W >= 0
  {
    MulMono(0, num * BASE + u2, P);
  }

  lemma Fits(qhat: int, v2: Limb)
    requires 0 <= qhat < BASE
    ensures Prod(qhat, v2) < 0x1_0000_0000_0000_0000
  {
    MulMono(qhat, BASE - 1, v2);
  }

  lemma Decrement(W: int, V: int, vtop: int, qhat: int)
    requires 0 <= W < BASE * V && 0 <= qhat
    requires qhat >= BASE || W < Prod(qhat, V)
    ensures qhat > 0 && W < Prod(qhat, V)
    ensures Prod(qhat - 1, vtop) == Prod(qhat, vtop) - vtop
  {
    if qhat >= BASE { MulMono(BASE, qhat, V); }
    Distribute(qhat, 1, vtop);
  }

  lemma EstimateSize(numerator: int, vtop: Limb)
    requires BASE / 2 <= vtop && 0 <= numerator < vtop * BASE + BASE
    ensures Rem(numerator, vtop) + Prod(Quot(numerator, vtop), vtop) == numerator
    ensures 0 <= Rem(numerator, vtop) < vtop && 0 <= Quot(numerator, vtop) <= BASE + 1
  {
    var q := numerator / vtop;
    assert numerator == vtop * q + numerator % vtop;
    if q >= BASE + 2 {
      MulMono(BASE + 2, q, vtop);
    }
    if q < 0 { MulMono(q, -1, vtop); }
  }

  lemma SmallAfterBreak(numerator: int, vtop: Limb, v2: Limb, qhat: int, rhat: int)
    requires BASE / 2 <= vtop && numerator < vtop * BASE + BASE && qhat >= 0
    requires rhat + Prod(qhat, vtop) == numerator && rhat >= BASE
    ensures qhat < BASE && Prod(qhat, v2) <= rhat * BASE
  {
    if qhat >= BASE { MulMono(BASE, qhat, vtop); }
    MulMono(qhat, BASE - 1, v2);
  }

  // ----- multiply and subtract, add back -----

  lemma ProdFits(q: Limb, v: Limb)
    ensures 0 <= Prod(q, v) <= (BASE - 1) * (BASE - 1)
  {
    MulMono(0, q, v);
    MulMono(q, BASE - 1, v);
  }

  lemma MulSubTail(w: seq<Limb>, v: seq<Limb>, i: nat, q: int)
    requires i < |v| && i < |w|
    ensures Val(w[i..]) - Prod(q, Val(v[i..])) ==
      w[i] - Prod(q, v[i]) + BASE * (Val(w[i + 1..]) - Prod(q, Val(v[i + 1..])))
  {
    hide Val;
    ValHead(w, i);
    ValHead(v, i);
    Distribute(v[i], BASE * Val(v[i + 1..]), q);
    MulBase(Val(v[i + 1..]), q);
  }

  /** un[jj .. jj+nb] -= qhat * v, answering the borrow out of the window. */
  method MulSub(un: array<Limb>, jj: nat, v: seq<Limb>, qhat: Limb) returns (borrow: I64)
    requires jj + |v| < un.Length
    modifies un
    ensures 0 <= borrow <= 1
    ensures Glue(un[jj..jj + |v| + 1], -borrow) == Val(old(un[jj..jj + |v| + 1])) - Prod(qhat, Val(v))
    ensures forall k :: 0 <= k < un.Length && !(jj <= k <= jj + |v|) ==> un[k] == old(un[k])
  {
    hide Val, Glue, Prod, Lo, Hi;
    ghost var w := un[jj..jj + |v| + 1];
    ghost var total := Val(w) - Prod(qhat, Val(v));
    ghost var done: seq<Limb> := [];
    ghost var tail := total;
    assert w[0..] == w && v[0..] == v;
    GlueNil(done, total);
    borrow := 0;
    var carry: U64 := 0;
    var i := 0;
    while i < |v|
      invariant i <= |v| && |done| == i && 0 <= borrow <= 1 && carry < BASE
      invariant tail == Val(w[i..]) - Prod(qhat, Val(v[i..])) - carry - borrow && Glue(done, tail) == total
      invariant un[jj..jj + i] == done && un[jj + i..jj + |v| + 1] == w[i..]
      invariant forall k {:trigger un[k]} :: 0 <= k < un.Length && !(jj <= k <= jj + |v|) ==> un[k] == old(un[k])
    {
      hide Val, Glue, Prod, Lo, Hi;
      assert un[jj + i] == un[jj + i..jj + |v| + 1][0] == w[i];
      ProdFits(qhat, v[i]);
      var p: U64 := Mul64(qhat, v[i]) + carry;
      LoHi(p);
      carry := Hi(p);
      var t: I64 := un[jj + i] - Lo(p) - borrow;
      if t < 0 {
        t := t + BASE;
        borrow := 1;
      } else {
        borrow := 0;
      }
      MulSubTail(w, v, i, qhat);
      ghost var rest := Val(w[i + 1..]) - Prod(qhat, Val(v[i + 1..])) - carry - borrow;
      GlueNext(done, t, rest, tail);
      un[jj + i] := t;
      assert un[jj..jj + i + 1] == done + [t];
      assert un[jj + i + 1..jj + |v| + 1] == w[i..][1..] == w[i + 1..];
      tail := rest;
      done := done + [t];
      i := i + 1;
    }
    assert un[jj + |v|] == un[jj + |v|..jj + |v| + 1][0] == w[|v|];
    ValNil(v[i..]);
    ProdIs(qhat, 0);
    ValHead(w, |v|);
    ValNil(w[|v| + 1..]);
    var t: I64 := un[jj + |v|] - carry - borrow;
    if t < 0 {
      t := t + BASE;
      borrow := 1;
    } else {
      borrow := 0;
    }
    GlueNext(done, t, 0 - borrow, tail);
    un[jj + |v|] := t;
    assert un[jj..jj + |v| + 1] == done + [t];
  }

  /** un[jj .. jj+nb] += v, the carry out of the top limb being dropped. */
  method AddBack(un: array<Limb>, jj: nat, v: seq<Limb>) returns (ghost dropped: int)
    requires jj + |v| < un.Length
    modifies un
    ensures 0 <= dropped <= 1
    ensures Glue(un[jj..jj + |v| + 1], dropped) == Val(old(un[jj..jj + |v| + 1])) + Val(v)
    ensures forall k :: 0 <= k < un.Length && !(jj <= k <= jj + |v|) ==> un[k] == old(un[k])
  {
    hide Val, Glue, Lo, Hi;
    ghost var w := un[jj..jj + |v| + 1];
    ghost var done: seq<Limb> := [];
    assert w[0..] == w && v[0..] == v;
    GlueNil(done, Val(w) + Val(v));
    var addCarry: U64 := 0;
    var i := 0;
    while i < |v|
      invariant i <= |v| && |done| == i && addCarry <= 1
      invariant Glue(done, Val(w[i..]) + Val(v[i..]) + addCarry) == Val(w) + Val(v)
      invariant un[jj..jj + i] == done && un[jj + i..jj + |v| + 1] == w[i..]
      invariant forall k {:trigger un[k]} :: 0 <= k < un.Length && !(jj <= k <= jj + |v|) ==> un[k] == old(un[k])
    {
      hide Val, Glue, Lo, Hi;
      assert un[jj + i] == un[jj + i..jj + |v| + 1][0] == w[i];
      var sum: U64 := un[jj + i] + v[i] + addCarry;
      LoHi(sum);
      ValHead(w, i);
      ValHead(v, i);
      ghost var t := Val(w[i + 1..]) + Val(v[i + 1..]) + Hi(sum);
      assert Val(w[i..]) + Val(v[i..]) + addCarry == Lo(sum) + BASE * t;
      GlueSnoc(done, Lo(sum), t);
      un[jj + i] := Lo(sum);
      assert un[jj..jj + i + 1] == done + [Lo(sum)];
      assert un[jj + i + 1..jj + |v| + 1] == w[i..][1..] == w[i + 1..];
      addCarry := Hi(sum);
      done := done + [Lo(sum)];
      i := i + 1;
    }
    assert un[jj + |v|] == un[jj + |v|..jj + |v| + 1][0] == w[|v|];
    ValNil(v[i..]);
    ValHead(w, |v|);
    ValNil(w[|v| + 1..]);
    var sum: U64 := un[jj + |v|] + addCarry;
    LoHi(sum);
    un[jj + |v|] := Lo(sum);
    dropped := Hi(sum);
    GlueSnoc(done, Lo(sum), dropped);
    assert un[jj..jj + |v| + 1] == done + [Lo(sum)];
  }

  // ----- one quotient digit -----

  lemma Val2(t: seq<Limb>)
    requires |t| == 2
    ensures Val(t) == t[0] + BASE * t[1]
  {
    ValHead(t, 0);
    ValHead(t, 1);
    ValNil(t[2..]);
    assert t[0..] == t;
  }

  lemma Val3(t: seq<Limb>)
    requires |t| == 3
    ensures Val(t) == t[0] + BASE * (t[1] + BASE * t[2])
  {
    Val2(t[1..]);
  }

  lemma TopLimbs(w: seq<Limb>, n: nat)
    requires n <= |w|
    ensures Val(w) == Val(w[..n]) + Prod(Val(w[n..]), Shift(1, n))
  {
    hide Val, Shift;
    ValSplit(w, n);
    ShiftMul(1, Val(w[n..]), n);
  }

  lemma TopLimbLe(s: seq<Limb>, t: seq<Limb>)
    requires |s| == |t| > 0 && Val(s) < Val(t)
    ensures s[|s| - 1] <= t[|t| - 1]
  {
    if s[|s| - 1] > t[|t| - 1] {
      CompareAt(t, s, |s| - 1);
    }
  }

  /** The window facts the estimate relies on, read off the limbs. */
  lemma WindowLimbs(w: seq<Limb>, v: seq<Limb>)
    requires |v| >= 2 && |w| == |v| + 1 && v[|v| - 1] >= BASE / 2 && Val(w[1..]) < Val(v)
    ensures var nb := |v|;
      && w[nb] <= v[nb - 1] && Val(w) < BASE * Val(v)
      && Window(Val(w), Val(v), Shift(1, nb - 2), w[nb] * BASE + w[nb - 1], w[nb - 2], v[nb - 1], v[nb - 2],
           Val(w[..nb - 2]), Val(v[..nb - 2]))
  {
    var nb := |v|;
    hide Val, Shift, Prod;
    TopLimbLe(w[1..], v);
    ValHead(w, 0);
    assert w[0..] == w;
    TopLimbs(w, nb - 2);
    TopLimbs(v, nb - 2);
    Val3(w[nb - 2..]);
    Val2(v[nb - 2..]);
    ValBound(w[..nb - 2]);
    ValBound(v[..nb - 2]);
    ShiftMono(0, 1, nb - 2);
    ShiftZero(nb - 2);
  }

  lemma TopLimbZero(w: seq<Limb>, v: seq<Limb>)
    requires |w| == |v| + 1 && Val(w) < Val(v)
    ensures w[|v|] == 0 && Val(w[..|v|]) == Val(w)
  {
    hide Val, Shift;
    ValBound(v);
    if w[|v|] != 0 {
      ValTop(w);
    }
    ValTrim(w, |v|);
  }

  /** One step of Algorithm D: a digit of the quotient, the window left as the remainder. */
  method Digit(un: array<Limb>, jj: nat, v: seq<Limb>) returns (q: Limb)
    requires |v| >= 2 && jj + |v| < un.Length
    requires v[|v| - 1] >= BASE / 2 && Val(un[jj + 1..jj + |v| + 1]) < Val(v)
    modifies un
    ensures Val(old(un[jj..jj + |v| + 1])) == Prod(q, Val(v)) + Val(un[jj..jj + |v|])
    ensures Val(un[jj..jj + |v|]) < Val(v) && un[jj + |v|] == 0
    ensures forall k :: 0 <= k < un.Length && !(jj <= k <= jj + |v|) ==> un[k] == old(un[k])
  {
    hide Val, Shift, Prod, Window, Glue;
    var nb := |v|;
    ghost var w := un[jj..jj + nb + 1];
    assert w[1..] == un[jj + 1..jj + nb + 1];
    WindowLimbs(w, v);
    var qhat := Estimate(un[jj + nb], un[jj + nb - 1], un[jj + nb - 2], v[nb - 1], v[nb - 2],
      Val(w), Val(v), Shift(1, nb - 2), Val(w[..nb - 2]), Val(v[..nb - 2]));
    var borrow := MulSub(un, jj, v, qhat);
    ghost var w1 := un[jj..jj + nb + 1];
    ProdStep(qhat, Val(v));
    if borrow != 0 {
      GlueNegative(w1, -1);
      qhat := qhat - 1;
      ghost var dropped := AddBack(un, jj, v);
      ghost var w2 := un[jj..jj + nb + 1];
      AddBackRestores(w1, w2, Val(v), dropped, Val(w) - Prod(qhat, Val(v)));
    } else {
      GlueZero(w1);
    }
    q := qhat;
    ghost var w3 := un[jj..jj + nb + 1];
    TopLimbZero(w3, v);
    assert w3[..nb] == un[jj..jj + nb];
  }

  lemma ProdStep(q: int, v: int)
    ensures Prod(q + 1, v) == Prod(q, v) + v && Prod(q - 1, v) == Prod(q, v) - v
    ensures q <= 0 && v >= 0 ==> Prod(q, v) <= 0
  {
    Distribute(q, 1, v);
    if q <= 0 && v >= 0 { MulMono(q, 0, v); }
  }

  /** The dropped carry cancels the borrow: adding the divisor back restores the remainder r. */
  lemma AddBackRestores(w1: seq<Limb>, w2: seq<Limb>, v: nat, dropped: int, r: int)
    requires |w1| == |w2| && Glue(w1, -1) == r - v && Glue(w2, dropped) == Val(w1) + v
    requires 0 <= dropped <= 1 && 0 <= r
    ensures Val(w2) == r
  {
    hide Val, Glue, Shift;
    GlueShift(w1, 0, -1);
    GlueZero(w1);
    GlueZero(w2);
    GlueShift(w2, 0, dropped);
    ShiftAdd(0, 1, |w1|);
    ShiftZero(|w1|);
    ValBound(w2);
  }

  /** The digit loop of Algorithm D, from the top digit down: un becomes the remainder,
      q[..un.Length - nb] the quotient. */
  method Digits(un: array<Limb>, v: seq<Limb>, q: array<Limb>)
    requires |v| >= 2 && |v| < un.Length && q.Length >= un.Length - |v| && q != un
    requires v[|v| - 1] >= BASE / 2 && Val(un[un.Length - |v|..]) < Val(v)
    modifies un, q
    ensures Val(old(un[..])) == Val(q[..un.Length - |v|]) * Val(v) + Val(un[..|v|])
    ensures Val(un[..|v|]) < Val(v) && un[|v|] == 0
    ensures forall k :: un.Length - |v| <= k < q.Length ==> q[k] == old(q[k])
  {
    hide Val, Shift, Prod;
    var nb, m := |v|, un.Length - |v|;
    ghost var u := Val(un[..]);
    var j := m;
    assert un[..m + nb] == un[..] && un[m..m + nb] == un[m..];
    ValNil(q[m..m]);
    ProdIs(0, Val(v));
    ShiftZero(m);
    while j > 0
      invariant 0 <= j <= m
      invariant Val(un[..j + nb]) + Shift(Prod(Val(q[j..m]), Val(v)), j) == u
      invariant Val(un[j..j + nb]) < Val(v) && (j < m ==> un[j + nb] == 0)
      invariant forall k :: m <= k < q.Length ==> q[k] == old(q[k])
    {
      hide Val, Shift, Prod;
      var jj := j - 1;
      ghost var before, quotient := un[..j + nb], q[j..m];
      var d := Digit(un, jj, v);
      q[jj] := d;
      assert q[jj..m] == [d] + quotient;
      DigitStep(before, un[..jj + nb], quotient, d, jj, v);
      j := jj;
    }
    assert q[0..m] == q[..m] && un[0..nb] == un[..nb] && un[..0 + nb] == un[..nb];
    ShiftNone(Prod(Val(q[..m]), Val(v)));
    ProdIs(Val(q[..m]), Val(v));
  }

  /** Splitting off one digit keeps dividend = quotient * divisor + rest. */
  lemma DigitStep(before: seq<Limb>, after: seq<Limb>, quotient: seq<Limb>, d: Limb, jj: nat, v: seq<Limb>)
    requires |before| == jj + |v| + 1 && |after| == jj + |v| && after[..jj] == before[..jj]
    requires Val(before[jj..]) == Prod(d, Val(v)) + Val(after[jj..])
    ensures Val(after) + Shift(Prod(Val([d] + quotient), Val(v)), jj)
         == Val(before) + Shift(Prod(Val(quotient), Val(v)), jj + 1)
  {
    hide Val, Shift, Prod;
    ValSplit(before, jj);
    ValSplit(after, jj);
    LimbStep(quotient, d, Val(v));
    DigitArith(Val(before[jj..]), Val(after[jj..]), Prod(Val([d] + quotient), Val(v)), Prod(d, Val(v)),
      Prod(Val(quotient), Val(v)), jj);
  }

  lemma DigitArith(before: int, after: int, with: int, p: int, pq: int, n: nat)
    requires before == p + after && with == p + BASE * pq
    ensures Shift(after, n) + Shift(with, n) == Shift(before, n) + Shift(pq, n + 1)
  {
    hide Shift;
    ShiftAdd(p, after, n);
    ShiftAdd(p, BASE * pq, n);
    ShiftBase(pq, n);
  }

  lemma ShiftBase(x: int, n: nat)
    ensures Shift(BASE * x, n) == Shift(x, n + 1)
  {
    ShiftShift(x, 1, n);
    assert Shift(x, 1) == BASE * Shift(x, 0);
  }

  // ----- normalization by a bit shift -----

  /** The shift that sets the divisor's top bit. */
  method TopShift(top0: Limb) returns (shift: nat)
    requires top0 != 0
    ensures shift < 32 && BASE / 2 <= top0 * Pow2(shift) < BASE
  {
    hide Pow2, Prod;
    shift := 0;
    var top := top0;
    assert Pow2(0) == 1 by { Pow2Zero(); }
    ProdIs(top0, Pow2(0));
    while top < 0x8000_0000
      invariant 1 <= top < BASE && top == Prod(top0, Pow2(shift))
      decreases BASE - top
    {
      hide Pow2, Prod;
      Pow2Succ(top0, shift);
      top := 2 * top;
      shift := shift + 1;
    }
    ShiftSmall(top0, shift);
    ProdIs(top0, Pow2(shift));
  }

  lemma Pow2Zero()
    ensures Pow2(0) == 1
  {
  }

  lemma Pow2Succ(x: int, k: nat)
    ensures Prod(x, Pow2(k + 1)) == 2 * Prod(x, Pow2(k))
  {
    assert Pow2(k + 1) == 2 * Pow2(k);
    DoubleMul(Pow2(k), x);
  }

  lemma ShiftSmall(top0: Limb, shift: nat)
    requires top0 >= 1 && Prod(top0, Pow2(shift)) < BASE
    ensures shift < 32
  {
    MulMono(1, top0, Pow2(shift));
    if shift >= 32 {
      Pow2Limb();
      Pow2Mono(32, shift);
    }
  }

  /** The bits a left shift pushes past the top limb. */
  function TopBits(a: seq<Limb>, s: nat): Limb
    requires s < 32
  {
    if s == 0 || a == [] then 0 else ShrLimb(a[|a| - 1], 32 - s)
  }

  /** out[..|a|] := a << s, top limb first as in the source. */
  method NormalizeInto(a: seq<Limb>, s: nat, out: array<Limb>)
    requires s < 32 && out.Length >= |a|
    modifies out
    ensures Glue(out[..|a|], TopBits(a, s)) == Val(a) * Pow2(s)
    ensures forall k :: |a| <= k < out.Length ==> out[k] == old(out[k])
  {
    hide Val, Glue, Pow2, PowTwo, ShlPair;
    if s == 0 {
      forall k | 0 <= k < |a| { out[k] := a[k]; }
      Pow2Zero();
      assert out[..|a|] == a;
      GlueZero(a);
    } else {
      var i := |a|;
      while i > 0
        invariant 0 <= i <= |a|
        invariant forall k :: i <= k < |a| ==> out[k] == ShlPair(a[k], Under(a, k, 0), s)
        invariant forall k :: |a| <= k < out.Length ==> out[k] == old(out[k])
      {
        out[i - 1] := ShlPair(a[i - 1], if i >= 2 then a[i - 2] else 0, s);
        i := i - 1;
      }
      ShlValue(0, a, out[..|a|], s);
      ZeroDiv(Pow2(32 - s));
    }
  }

  lemma ZeroDiv(m: int)
    requires m >= 1
    ensures 0 / m == 0
  {
  }

  /** r := un[..nb] >> s, exact because the dropped bits are zero. */
  method Denormalize(un: array<Limb>, nb: nat, s: nat, r: array<Limb>)
    requires s < 32 && 0 < nb < un.Length && un[nb] == 0 && r.Length >= nb && r != un
    modifies r
    ensures Val(un[..nb]) == Val(r[..nb]) * Pow2(s) + un[0] % Pow2(s)
    ensures forall k :: nb <= k < r.Length ==> r[k] == old(r[k])
  {
    hide Val, Pow2, ShrPair;
    if s == 0 {
      forall k | 0 <= k < nb { r[k] := un[k]; }
      Pow2Zero();
      assert r[..nb] == un[..nb];
      ModOne(un[0]);
    } else {
      ghost var u := un[..nb];
      var i := 0;
      while i < nb
        invariant i <= nb
        invariant forall k :: 0 <= k < i ==> r[k] == ShrAt(u, k, s)
        invariant forall k :: nb <= k < r.Length ==> r[k] == old(r[k])
      {
        r[i] := ShrPair(un[i], un[i + 1], s);
        i := i + 1;
      }
      ShrValue(u, r[..nb], s);
    }
  }

  lemma ModOne(x: int)
    ensures x % 1 == 0
  {
  }

  /** Scaling both sides by m = 2^s leaves the quotient alone and scales the remainder. */
  lemma Unscale(a: int, b: int, q: int, rest: int, r: int, lost: int, m: int)
    requires m >= 1 && 0 <= lost < m && b >= 0
    requires a * m == q * (b * m) + rest && rest < b * m && rest == r * m + lost && 0 <= rest
    ensures a == q * b + r && r < b
  {
    Assoc(q, b, m);
    Distribute(a, q * b, m);
    var d := a - q * b;
    assert d * m == r * m + lost;
    Distribute(d, r, m);
    if d < r { MulMono(d - r, -1, m); } else if d > r { MulMono(1, d - r, m); }
    if r >= b { MulMono(b, r, m); }
  }

  method DivModKnuth(a: seq<Limb>, b: seq<Limb>, q: array<Limb>, r: array<Limb>) returns (nq: nat, nr: nat)
    requires 2 <= |b| <= |a| && Normalized(b)
    requires q.Length >= |a| - |b| + 1 && r.Length >= |b| && q != r
    modifies q, r
    ensures nq <= |a| - |b| + 1 && nr <= |b| && Normalized(q[..nq]) && Normalized(r[..nr])
    ensures Val(a) == Val(q[..nq]) * Val(b) + Val(r[..nr]) && Val(r[..nr]) < Val(b)
    ensures forall k :: |a| - |b| + 1 <= k < q.Length ==> q[k] == old(q[k])
    ensures forall k :: |b| <= k < r.Length ==> r[k] == old(r[k])
  {
    hide Val, Glue, Pow2, PowTwo;
    var na, nb := |a|, |b|;
    var shift := TopShift(b[nb - 1]);
    var un := new Limb[na + 1](_ => 0);
    var vn := new Limb[nb](_ => 0);
    NormalizeInto(b, shift, vn);
    un[na] := TopBits(a, shift);
    NormalizeInto(a, shift, un);
    var v := vn[..];
    assert vn[..nb] == v;
    NormalizedDivisor(b, shift, v);
    NormalizedDividend(a, shift, un[..], v);
    Digits(un, v, q);
    Denormalize(un, nb, shift, r);
    Unscale(Val(a), Val(b), Val(q[..na - nb + 1]), Val(un[..nb]), Val(r[..nb]), un[0] % Pow2(shift), Pow2(shift));
    nq := Normalize(q[..na - nb + 1]);
    nr := Normalize(r[..nb]);
    assert q[..na - nb + 1][..nq] == q[..nq] && r[..nb][..nr] == r[..nr];
  }

  /** The shifted divisor keeps its length and has its top bit set. */
  lemma NormalizedDivisor(b: seq<Limb>, s: nat, v: seq<Limb>)
    requires s < 32 && b != [] && |v| == |b| && BASE / 2 <= b[|b| - 1] * Pow2(s) < BASE
    requires Glue(v, TopBits(b, s)) == Val(b) * Pow2(s)
    ensures Val(v) == Val(b) * Pow2(s) && v[|v| - 1] >= BASE / 2
  {
    hide Val, Glue, Pow2, PowTwo, Shift;
    var top := b[|b| - 1];
    var n := |b| - 1;
    NoTopBits(top, s);
    GlueZero(v);
    TopProduct(b, v, n, Pow2(s));
  }

  lemma NoTopBits(top: Limb, s: nat)
    requires s < 32 && top * Pow2(s) < BASE
    ensures s > 0 ==> top / Pow2(32 - s) == 0
  {
    if s > 0 {
      Complement(s);
      var n := Pow2(32 - s);
      if top >= n { MulMono(n, top, Pow2(s)); }
      DivUnique(top, 0, top, n);
    }
  }

  lemma TopProduct(b: seq<Limb>, v: seq<Limb>, n: nat, m: int)
    requires |b| == |v| == n + 1 && m >= 1 && Val(v) == Val(b) * m && b[n] * m >= BASE / 2
    ensures v[n] >= BASE / 2
  {
    hide Val, Shift, Prod;
    TopLimbs(b, n);
    TopLimbs(v, n);
    Val1(b[n..]);
    Val1(v[n..]);
    ValBound(v[..n]);
    var p := Shift(1, n);
    TopProductArith(Val(b[..n]), b[n], Val(v[..n]), v[n], p, m);
  }

  lemma Val1(t: seq<Limb>)
    requires |t| == 1
    ensures Val(t) == t[0]
  {
    ValHead(t, 0);
    ValNil(t[1..]);
    assert t[0..] == t;
  }

  lemma TopProductArith(blo: nat, bt: int, vlo: int, vt: int, p: int, m: int)
    requires vlo + Prod(vt, p) == (blo + Prod(bt, p)) * m && vlo < p && m >= 1 && bt * m >= BASE / 2 && p >= 1
    ensures vt >= BASE / 2
  {
    Distribute(blo, bt * p, m);
    assert (bt * p) * m == (bt * m) * p;
    MulMono(0, blo, m);
    if vt < BASE / 2 {
      MulMono(vt + 1, bt * m, p);
      Distribute(vt, 1, p);
    }
  }

  /** The shifted dividend's top nb limbs are below the divisor, so the first digit fits. */
  lemma NormalizedDividend(a: seq<Limb>, s: nat, u: seq<Limb>, v: seq<Limb>)
    requires s < 32 && 2 <= |v| <= |a| && |u| == |a| + 1 && u[|a|] == TopBits(a, s)
    requires Glue(u[..|a|], TopBits(a, s)) == Val(a) * Pow2(s) && v[|v| - 1] >= BASE / 2
    ensures Val(u) == Val(a) * Pow2(s)
    ensures Val(u[|u| - |v|..]) < Val(v)
  {
    hide Val, Glue, Pow2, PowTwo, TopBits;
    GlueSnoc(u[..|a|], u[|a|], 0);
    assert u[..|a|] + [u[|a|]] == u;
    GlueZero(u);
    SmallTopBits(a, s);
    TopBelow(u, v);
  }

  lemma TopBelow(u: seq<Limb>, v: seq<Limb>)
    requires 0 < |v| <= |u| && u[|u| - 1] < v[|v| - 1]
    ensures Val(u[|u| - |v|..]) < Val(v)
  {
    hide Val;
    var w := u[|u| - |v|..];
    assert w[|v|..] == v[|v|..] == [];
    CompareAt(w, v, |v| - 1);
  }

  lemma SmallTopBits(a: seq<Limb>, s: nat)
    requires s < 32
    ensures TopBits(a, s) < BASE / 2
  {
    if s > 0 && a != [] {
      Complement(s);
      ShiftedLimb(a[|a| - 1], Pow2(s), Pow2(32 - s));
      Pow2Mono(s, 31);
      Pow2Limb();
      assert Pow2(32) == 2 * Pow2(31);
    }
  }

  /** Truncating division. Answers false, outputs untouched, on a zero divisor. */
  method DivMod(a: seq<Limb>, b: seq<Limb>, q: array<Limb>, r: array<Limb>) returns (ok: bool, nq: nat, nr: nat)
    requires Normalized(a) && Normalized(b)
    requires q.Length >= |a| && r.Length >= |b| && q != r
    modifies q, r
    ensures ok <==> Val(b) != 0
    ensures !ok ==> q[..] == old(q[..]) && r[..] == old(r[..])
    ensures ok ==> nq <= q.Length && nr <= r.Length && Normalized(q[..nq]) && Normalized(r[..nr])
    ensures ok ==> Val(a) == Val(q[..nq]) * Val(b) + Val(r[..nr]) && Val(r[..nr]) < Val(b)
    ensures forall k {:trigger q[k]} :: |a| <= k < q.Length ==> q[k] == old(q[k])
    ensures forall k {:trigger r[k]} :: |b| <= k < r.Length ==> r[k] == old(r[k])
  {
    hide Val;
    nq, nr := 0, 0;
    ValNil(b);
    if |b| == 0 {
      return false, nq, nr;
    }
    ok := true;
    assert Val(b) > 0 by { Positive(b); }
    var c := Compare(a, b);
    if c < 0 {
      NormalizedLength(a, b);
      forall k | 0 <= k < |a| { r[k] := a[k]; }
      nr := |a|;
      assert r[..nr] == a;
      ValNil(q[..0]);
      return;
    }
    NormalizedLength(b, a);
    if |b| == 1 {
      nq, nr := DivModLimb(a, b, q, r);
      return;
    }
    nq, nr := DivModKnuth(a, b, q, r);
  }

  /** The single-limb divisor: one limb of the dividend at a time from the top. */
  method DivModLimb(a: seq<Limb>, b: seq<Limb>, q: array<Limb>, r: array<Limb>) returns (nq: nat, nr: nat)
    requires |b| == 1 && b[0] != 0 && q.Length >= |a| && r.Length >= 1 && q != r
    modifies q, r
    ensures nq <= |a| && nr <= 1 && Normalized(q[..nq]) && Normalized(r[..nr])
    ensures Val(a) == Val(q[..nq]) * Val(b) + Val(r[..nr]) && Val(r[..nr]) < Val(b)
    ensures q[|a|..] == old(q[|a|..]) && r[1..] == old(r[1..])
  {
    hide Val, Prod, Quot, Rem;
    var divisor: U64 := b[0];
    var rem: U64 := 0;
    var i := |a|;
    Val1(b);
    ValNil(a[|a|..]);
    ValNil(q[|a|..|a|]);
    ProdIs(0, divisor);
    while i > 0
      invariant 0 <= i <= |a| && rem < divisor
      invariant Val(a[i..]) == Prod(Val(q[i..|a|]), divisor) + rem
      invariant q[|a|..] == old(q[|a|..]) && r[..] == old(r[..])
    {
      hide Val, Prod, Quot, Rem;
      var cur: U64 := rem * BASE + a[i - 1];
      QuotRem(cur, divisor, rem);
      ghost var upper := q[i..|a|];
      q[i - 1] := Quot(cur, divisor);
      assert q[i - 1..|a|] == [Quot(cur, divisor)] + upper;
      ValHead(a, i - 1);
      LimbStep(upper, Quot(cur, divisor), divisor);
      rem := Rem(cur, divisor);
      i := i - 1;
    }
    assert a[0..] == a && q[0..|a|] == q[..|a|];
    ProdIs(Val(q[..|a|]), divisor);
    nq := Normalize(q[..|a|]);
    assert q[..|a|][..nq] == q[..nq];
    r[0] := rem;
    nr := if rem == 0 then 0 else 1;
    ValNil(r[..0]);
    Val1(r[..1]);
  }

  lemma QuotRem(cur: int, divisor: Limb, rem: int)
    requires divisor != 0 && 0 <= rem < divisor && rem * BASE <= cur < rem * BASE + BASE
    ensures cur == Prod(Quot(cur, divisor), divisor) + Rem(cur, divisor)
    ensures 0 <= Rem(cur, divisor) < divisor && 0 <= Quot(cur, divisor) < BASE
  {
    var x := cur / divisor;
    assert cur == divisor * x + cur % divisor;
    if x >= BASE { MulMono(BASE, x, divisor); }
    if x < 0 { MulMono(x, -1, divisor); }
  }

  lemma LimbStep(upper: seq<Limb>, x: Limb, d: int)
    ensures Prod(Val([x] + upper), d) == Prod(x, d) + BASE * Prod(Val(upper), d)
  {
    hide Val;
    ValHead([x] + upper, 0);
    assert ([x] + upper)[0..] == [x] + upper && ([x] + upper)[1..] == upper;
    Distribute(x, BASE * Val(upper), d);
    MulBase(Val(upper), d);
  }
}
