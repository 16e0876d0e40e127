/** Radix conversion of magnitudes (vm/runtime/BigInt.c:613-764): digits are taken off and folded
    in by whole chunks, the largest power of the base that fits a limb. */
module BigIntText {
  import opened Limbs
  import opened BigIntMul
  import opened BigIntShift
  import opened BigIntDiv
  import opened BigIntGcd

  // ----- numbers as digits -----

  ghost function Pow(b: nat, n: nat): nat
  {
    if n == 0 then 1 else b * Pow(b, n - 1)
  }

  ghost predicate DigitsOk(ds: seq<nat>, b: nat)
  {
    forall i {:trigger ds[i]} :: 0 <= i < |ds| ==> ds[i] < b
  }

  /** Most significant digit first. */
  ghost function Number(ds: seq<nat>, b: nat): int
  {
    if ds == [] then 0 else Prod(b, Number(ds[..|ds| - 1], b)) + ds[|ds| - 1]
  }

  /** The number whose low digits, lowest first, are ds and whose rest is t. */
  ghost function Above(ds: seq<nat>, t: int, b: nat): int
  {
    if ds == [] then t else ds[0] + Prod(b, Above(ds[1..], t, b))
  }

  lemma {:induction false} AboveSnoc(ds: seq<nat>, d: nat, t: int, b: nat)
    ensures Above(ds + [d], t, b) == Above(ds, d + b * t, b)
  {
    ProdIs(b, t);
    hide Prod;
    if ds == [] {
      assert ds + [d] == [d] && [d][1..] == [];
    } else {
      assert (ds + [d])[1..] == ds[1..] + [d];
      AboveSnoc(ds[1..], d, t, b);
    }
  }

  /** A digit takes at least a bit: with something left above them, n digits need n bits. */
  lemma {:induction false} AboveLarge(ds: seq<nat>, t: int, b: nat)
    requires t >= 1 && b >= 2
    ensures Above(ds, t, b) >= Pow2(|ds|)
  {
    hide Prod;
    if ds != [] {
      AboveLarge(ds[1..], t, b);
      ProdIs(b, Above(ds[1..], t, b));
      MulMono(2, b, Above(ds[1..], t, b));
    }
  }

  ghost predicate IsReversed(s: seq<nat>, r: seq<nat>)
  {
    |r| == |s| && forall i {:trigger r[i]} :: 0 <= i < |s| ==> r[i] == s[|s| - 1 - i]
  }

  lemma NumberSnoc(ds: seq<nat>, d: nat, b: nat)
    ensures Number(ds + [d], b) == Prod(b, Number(ds, b)) + d
  {
    hide Prod;
    assert (ds + [d])[..|ds|] == ds;
  }

  lemma {:induction false} ReversedNumber(ds: seq<nat>, rs: seq<nat>, b: nat)
    requires IsReversed(ds, rs)
    ensures Number(rs, b) == Above(ds, 0, b)
  {
    hide Prod;
    if ds != [] {
      var init := rs[..|rs| - 1];
      assert IsReversed(ds[1..], init);
      assert rs == init + [ds[0]];
      ReversedNumber(ds[1..], init, b);
      hide Number, IsReversed;
      NumberSnoc(init, ds[0], b);
    }
  }

  lemma PowStep(b: nat, n: nat)
    ensures Pow(b, n + 1) == b * Pow(b, n)
  {
  }

  // ----- characters -----

  function DigitChar(d: nat): char
    requires d < 36
  {
    if d < 10 then '0' + d as char else 'a' + (d - 10) as char
  }

  function CharDigit(c: char): nat
  {
    if '0' <= c <= '9' then (c - '0') as nat
    else if 'a' <= c <= 'z' then (c - 'a') as nat + 10
    else if 'A' <= c <= 'Z' then (c - 'A') as nat + 10
    else 0
  }

  lemma CharOfDigit(d: nat)
    requires d < 36
    ensures CharDigit(DigitChar(d)) == d && (DigitChar(d) == '0' <==> d == 0)
  {
  }

  ghost function CharDigits(s: seq<char>): (r: seq<nat>)
    ensures |r| == |s| && forall i {:trigger r[i]} :: 0 <= i < |s| ==> r[i] == CharDigit(s[i])
  {
    seq(|s|, i requires 0 <= i < |s| => CharDigit(s[i]))
  }

  // ----- chunks -----

  /** The largest power of the base that fits a limb. */
  method Chunk(base: nat) returns (chunkBase: Limb, chunkDigits: nat)
    requires 2 <= base <= 36
    ensures chunkDigits >= 1 && chunkBase as int == Pow(base, chunkDigits) && chunkBase >= base &&
      chunkBase as int * base >= BASE
  {
    chunkBase, chunkDigits := base, 1;
    PowStep(base, 0);
    while chunkBase * base <= 0xFFFF_FFFF
      invariant chunkDigits >= 1 && chunkBase as int == Pow(base, chunkDigits) && chunkBase >= base
      decreases BASE - chunkBase
    {
      MulMono(2, base, chunkBase);
      PowStep(base, chunkDigits);
      assert base * chunkBase == chunkBase * base;
      chunkBase, chunkDigits := chunkBase * base, chunkDigits + 1;
    }
  }

  lemma Pow2Less(m: nat, n: nat)
    requires Pow2(m) < Pow2(n)
    ensures m < n
  {
    if n <= m { Pow2Mono(n, m); }
  }

  /** The digits written so far, lowest first. */
  ghost predicate Wrote(out: seq<char>, written: nat, ds: seq<nat>, base: nat)
  {
    && |ds| == written <= |out| && base <= 36
    && forall i {:trigger out[i]} {:trigger ds[i]} :: 0 <= i < written ==> ds[i] < base && out[i] == DigitChar(ds[i])
  }

  /** With something left to write there is room for it. */
  lemma Room(ds: seq<nat>, t: int, base: nat, value: int, limit: nat)
    requires t >= 1 && base >= 2 && Above(ds, t, base) == value < Pow2(limit)
    ensures |ds| < limit
  {
    AboveLarge(ds, t, base);
    Pow2Less(|ds|, limit);
  }

  /** The lowest digit of what is left of a chunk, and the rest. */
  lemma TakeDigit(rem: nat, base: nat)
    requires base >= 2
    ensures 0 <= Rem(rem, base) < base && 0 <= Quot(rem, base) && rem == Rem(rem, base) + base * Quot(rem, base)
    ensures rem >= 1 ==> Quot(rem, base) < rem
  {
    assert rem == base * (rem / base) + rem % base;
    if rem >= 1 { MulMono(2, base, rem / base); }
  }

  /** The same with q above the chunk. */
  lemma TailStep(rem: nat, base: nat, q: nat, p: nat)
    requires base >= 2 && rem < base * p
    ensures rem + Prod(q, base * p) == Rem(rem, base) + base * (Quot(rem, base) + Prod(q, p)) && Quot(rem, base) < p
  {
    TakeDigit(rem, base);
    hide Quot, Rem;
    var high := Quot(rem, base);
    ProdIs(q, base * p);
    ProdIs(q, p);
    Assoc(q, base, p);
    Assoc(base, q, p);
    Distribute(high, q * p, base);
    if high >= p { MulMono(p, high, base); }
  }

  /** An interior chunk: all its digits, leading zeros included. */
  method EmitChunk(out: array<char>, start: nat, chunk: nat, base: nat, k: nat, ghost start_: seq<nat>, ghost q: nat,
      ghost value: int, ghost limit: nat)
    returns (written: nat, ghost ds: seq<nat>)
    requires 2 <= base <= 36 && Wrote(out[..], start, start_, base) && q >= 1 && chunk < Pow(base, k) &&
      limit <= out.Length
    requires Above(start_, chunk + Prod(q, Pow(base, k)), base) == value < Pow2(limit)
    modifies out
    ensures Wrote(out[..], written, ds, base) && Above(ds, q, base) == value
  {
    hide Prod, Pow, Above, Pow2, Quot, Rem;
    written, ds := start, start_;
    var rem: nat := chunk;
    var d := 0;
    while d < k
      invariant 0 <= d <= k && Wrote(out[..], written, ds, base) && rem < Pow(base, k - d) &&
        Above(ds, rem + Prod(q, Pow(base, k - d)), base) == value
    {
      hide Prod, Pow, Above, Pow2, Quot, Rem;
      ghost var p := Pow(base, k - d - 1);
      PowStep(base, k - d - 1);
      ProdPositive(q, Pow(base, k - d), rem);
      Room(ds, rem + Prod(q, Pow(base, k - d)), base, value, limit);
      TailStep(rem, base, q, p);
      TakeDigit(rem, base);
      AboveSnoc(ds, Rem(rem, base), Quot(rem, base) + Prod(q, p), base);
      out[written] := DigitChar(Rem(rem, base));
      written, ds := written + 1, ds + [Rem(rem, base)];
      rem := Quot(rem, base);
      d := d + 1;
    }
    PowNone(base);
    ProdOne(q);
  }

  lemma ProdOne(q: nat)
    ensures Prod(q, 1) == q
  {
  }

  lemma PowNone(base: nat)
    ensures Pow(base, 0) == 1
  {
  }

  lemma ProdPositive(q: nat, p: nat, rem: nat)
    requires q >= 1 && rem < p
    ensures rem + Prod(q, p) >= 1
  {
    MulMono(1, q, p);
  }

  /** The last chunk: only its significant digits. */
  method EmitLast(out: array<char>, start: nat, chunk: nat, base: nat, ghost start_: seq<nat>, ghost value: int,
      ghost limit: nat)
    returns (written: nat, ghost ds: seq<nat>)
    requires 2 <= base <= 36 && Wrote(out[..], start, start_, base) && chunk >= 1 && limit <= out.Length &&
      Above(start_, chunk, base) == value < Pow2(limit)
    modifies out
    ensures Wrote(out[..], written, ds, base) && Above(ds, 0, base) == value && written >= 1 && ds[written - 1] != 0 &&
      written <= limit
  {
    hide Above, Pow2, Quot, Rem;
    written, ds := start, start_;
    var rem: nat := chunk;
    while rem != 0
      invariant Wrote(out[..], written, ds, base) && Above(ds, rem, base) == value
      invariant rem == 0 ==> written >= 1 && ds[written - 1] != 0 && written <= limit
      decreases rem
    {
      hide Above, Pow2, Quot, Rem;
      Room(ds, rem, base, value, limit);
      TakeDigit(rem, base);
      AboveSnoc(ds, Rem(rem, base), Quot(rem, base), base);
      out[written] := DigitChar(Rem(rem, base));
      written, ds := written + 1, ds + [Rem(rem, base)];
      rem := Quot(rem, base);
    }
  }

  /** One division by the chunk base, from the top limb down. */
  method DivChunk(work: array<Limb>, quotient: array<Limb>, nw: nat, d: Limb) returns (rem: nat)
    requires nw <= work.Length && nw <= quotient.Length && work != quotient && d != 0
    modifies quotient
    ensures Val(work[..nw]) == Prod(Val(quotient[..nw]), d) + rem && rem < d
  {
    hide Val, Prod, Quot, Rem;
    rem := 0;
    ghost var a := work[..nw];
    var i := nw;
    ValNil(a[nw..]);
    ValNil(quotient[nw..nw]);
    ProdIs(0, d);
    while i > 0
      invariant 0 <= i <= nw && rem < d && work[..nw] == a
      invariant Val(a[i..]) == Prod(Val(quotient[i..nw]), d) + rem
    {
      hide Val, Prod, Quot, Rem;
      var cur: U64 := rem * BASE + work[i - 1];
      QuotRem(cur, d, rem);
      ghost var upper := quotient[i..nw];
      quotient[i - 1] := Quot(cur, d);
      assert quotient[i - 1..nw] == [Quot(cur, d)] + upper;
      ValHead(a, i - 1);
      LimbStep(upper, Quot(cur, d), d);
      rem := Rem(cur, d);
      i := i - 1;
    }
    assert a[0..] == a && quotient[0..nw] == quotient[..nw];
  }

  // ----- printing -----

  /** Lower-case digits of the base, no leading zero. */
  ghost predicate Canonical(s: seq<char>, base: nat)
  {
    && |s| >= 1 && (|s| > 1 ==> s[0] != '0') && base <= 36
    && forall i {:trigger s[i]} :: 0 <= i < |s| ==> CharDigit(s[i]) < base && s[i] == DigitChar(CharDigit(s[i]))
  }

  /** The reversal of the digits in place. */
  method ReverseInPlace(out: array<char>, n: nat)
    requires n <= out.Length
    modifies out
    ensures forall i {:trigger out[i]} :: 0 <= i < n ==> out[i] == old(out[n - 1 - i])
    ensures forall i {:trigger out[i]} :: n <= i < out.Length ==> out[i] == old(out[i])
  {
    var i := 0;
    while i < n / 2
      invariant 0 <= i <= n / 2
      invariant forall k {:trigger out[k]} :: 0 <= k < i || n - i <= k < n ==> out[k] == old(out[n - 1 - k])
      invariant forall k {:trigger out[k]} :: i <= k < n - i || n <= k < out.Length ==> out[k] == old(out[k])
    {
      out[i], out[n - 1 - i] := out[n - 1 - i], out[i];
      i := i + 1;
    }
  }

  /** Written lowest first and then reversed. */
  lemma ReversedText(s: seq<char>, t: seq<char>, ds: seq<nat>, base: nat, value: int)
    requires 2 <= base && Wrote(s, |ds|, ds, base) && |t| == |ds| >= 1 && ds[|ds| - 1] != 0 &&
      Above(ds, 0, base) == value
    requires forall i {:trigger t[i]} :: 0 <= i < |t| ==> t[i] == s[|t| - 1 - i]
    ensures Canonical(t, base) && Number(CharDigits(t), base) == value
  {
    forall i | 0 <= i < |t| ensures CharDigits(t)[i] == ds[|ds| - 1 - i] && CharDigit(t[i]) < base &&
      t[i] == DigitChar(CharDigit(t[i])) {
      assert t[i] == s[|t| - 1 - i] == DigitChar(ds[|t| - 1 - i]);
      CharOfDigit(ds[|t| - 1 - i]);
    }
    assert t[0] == DigitChar(ds[|ds| - 1]);
    CharOfDigit(ds[|ds| - 1]);
    assert IsReversed(ds, CharDigits(t));
    hide Wrote, DigitChar, CharDigit, Above, Number;
    ReversedNumber(ds, CharDigits(t), base);
  }

  lemma ValBits(a: seq<Limb>)
    ensures Val(a) < Pow2(32 * |a|)
  {
    hide Val, Shift, Pow2;
    ValBound(a);
    ShiftIsPow2(1, |a|);
  }

  lemma QuotientSmaller(v: nat, q: nat, d: nat, rem: nat)
    requires v >= 1 && d >= 2 && v == Prod(q, d) + rem
    ensures q < v && (q == 0 ==> rem == v)
  {
    MulMono(2, d, q);
  }

  /** The lowest chunk comes off work. */
  method TakeChunk(work: array<Limb>, quotient: array<Limb>, nw: nat, chunkBase: Limb) returns (nq: nat, rem: nat)
    requires 1 <= nw <= work.Length == quotient.Length && work != quotient && chunkBase >= 2 && Normalized(work[..nw])
    modifies work, quotient
    ensures nq <= nw && Normalized(work[..nq]) && rem < chunkBase &&
      old(Val(work[..nw])) == rem + Prod(Val(work[..nq]), chunkBase)
    ensures Val(work[..nq]) < old(Val(work[..nw])) &&
      (nq == 0 ==> rem == old(Val(work[..nw])) >= 1 && Val(work[..nq]) == 0)
  {
    hide Val, Prod;
    ghost var v := Val(work[..nw]);
    Positive(work[..nw]);
    ghost var w := work[..nw];
    rem := DivChunk(work, quotient, nw, chunkBase);
    assert work[..nw] == w;
    nq := Normalize(quotient[..nw]);
    assert quotient[..nw][..nq] == quotient[..nq];
    ghost var q := quotient[..nq];
    QuotientSmaller(v, Val(q), chunkBase, rem);
    forall i | 0 <= i < nq { work[i] := quotient[i]; }
    assert work[..nq] == q;
    ValNil(work[..0]);
  }

  /** The digits of a nonzero magnitude, lowest first. */
  method Digitize(a: seq<Limb>, base: nat, out: array<char>) returns (written: nat, ghost ds: seq<nat>)
    requires 2 <= base <= 36 && Normalized(a) && a != [] && out.Length >= 32 * |a|
    modifies out
    ensures Wrote(out[..], written, ds, base) && Above(ds, 0, base) == Val(a) && 1 <= written <= 32 * |a| &&
      ds[written - 1] != 0
  {
    hide Val, Prod, Pow, Above, Pow2, Wrote;
    var chunkBase, chunkDigits := Chunk(base);
    var work, quotient := new Limb[|a|](i => if 0 <= i < |a| then a[i] else 0), new Limb[|a|](_ => 0);
    var nw := |a|;
    assert work[..nw] == a;
    written, ds := 0, [];
    Positive(a);
    ValBits(a);
    NothingWritten(out[..], Val(a), base);
    while nw != 0
      invariant nw <= |a| && Normalized(work[..nw]) && Wrote(out[..], written, ds, base) &&
        Above(ds, Val(work[..nw]), base) == Val(a) && fresh(work) && fresh(quotient) && work != quotient &&
        work.Length == quotient.Length == |a|
      invariant nw == 0 ==> 1 <= written <= 32 * |a| && |ds| == written && ds[written - 1] != 0
      decreases Val(work[..nw])
    {
      hide Val, Prod, Pow, Above, Pow2, Wrote;
      var rem: nat;
      nw, rem := TakeChunk(work, quotient, nw, chunkBase);
      if nw != 0 {
        Positive(work[..nw]);
        written, ds := EmitChunk(out, written, rem, base, chunkDigits, ds, Val(work[..nw]), Val(a), 32 * |a|);
      } else {
        written, ds := EmitLast(out, written, rem, base, ds, Val(a), 32 * |a|);
        WroteLength(out[..], written, ds, base);
      }
    }
    ValNil(work[..0]);
  }

  lemma WroteLength(out: seq<char>, written: nat, ds: seq<nat>, base: nat)
    requires Wrote(out, written, ds, base)
    ensures |ds| == written <= |out|
  {
  }

  lemma NothingWritten(out: seq<char>, v: int, base: nat)
    requires base <= 36
    ensures Wrote(out, 0, [], base) && Above([], v, base) == v
  {
  }

  /** bigIntToString: the canonical digits of the magnitude, or nothing if the buffer may be too
      small; zero is "0". */
  method ToString(a: seq<Limb>, base: nat, out: array<char>) returns (written: nat)
    requires 2 <= base <= 36 && Normalized(a)
    modifies out
    ensures written == 0 <==> out.Length < (if a == [] then 1 else 32 * |a| + 1)
    ensures written != 0 ==>
      written <= out.Length && Canonical(out[..written], base) &&
      Number(CharDigits(out[..written]), base) == Val(a)
    ensures forall i {:trigger out[i]} ::
      written <= i < out.Length && (a == [] || written == 0) ==> out[i] == old(out[i])
  {
    hide Val, Above, Number;
    if |a| == 0 {
      if out.Length < 1 { return 0; }
      out[0] := '0';
      ZeroText(out[..1], base);
      ValNil(a);
      return 1;
    }
    if out.Length < 32 * |a| + 1 { return 0; }
    ghost var ds: seq<nat>;
    written, ds := Digitize(a, base, out);
    ghost var s := out[..];
    ReverseInPlace(out, written);
    ReversedText(s, out[..written], ds, base, Val(a));
  }

  lemma ZeroText(s: seq<char>, base: nat)
    requires s == "0" && 2 <= base <= 36
    ensures Canonical(s, base) && Number(CharDigits(s), base) == 0
  {
    assert CharDigits(s) == [0] && [0][..0] == [];
    ProdIs(base, 0);
  }

  // ----- parsing -----

  ghost function BitLength(v: nat): nat
  {
    if v == 0 then 0 else 1 + BitLength(v / 2)
  }

  /** Limbs that hold any number of len digits, and one more. */
  ghost function StringLimbs(len: nat, base: nat): nat
    requires base >= 1
  {
    (len * BitLength(base - 1) + 31) / 32 + 1
  }

  lemma {:induction false} BitLengthBound(v: nat)
    ensures v < Pow2(BitLength(v))
  {
    if v > 0 {
      BitLengthBound(v / 2);
    }
  }

  lemma LimbsSuffice(len: nat, base: nat)
    requires base >= 2
    ensures StringLimbs(len, base) >= 1 && Pow(base, len) <= Pow2(32 * (StringLimbs(len, base) - 1))
  {
    var bits := BitLength(base - 1);
    hide BitLength;
    BitLengthBound(base - 1);
    PowBits(base, bits, len);
    assert bits * len == len * bits;
    Pow2Mono(bits * len, 32 * (StringLimbs(len, base) - 1));
  }

  /** bigIntFromStringSize. */
  method FromStringSize(len: nat, base: nat) returns (cap: nat)
    requires 2 <= base <= 36
    ensures cap == StringLimbs(len, base)
  {
    var bitsPerDigit := 0;
    var v := base - 1;
    while v != 0
      invariant 0 <= v && bitsPerDigit + BitLength(v) == BitLength(base - 1)
      decreases v
    {
      bitsPerDigit := bitsPerDigit + 1;
      v := v / 2;
    }
    cap := (len * bitsPerDigit + 32 - 1) / 32 + 1;
  }

  lemma {:induction false} PowBits(base: nat, bits: nat, n: nat)
    requires 1 <= base <= Pow2(bits)
    ensures Pow(base, n) <= Pow2(bits * n)
  {
    if n > 0 {
      PowBits(base, bits, n - 1);
      Pow2Add(bits, bits * (n - 1));
      assert bits + bits * (n - 1) == bits * n;
      MulMono(base, Pow2(bits), Pow(base, n - 1));
      MulMono(Pow(base, n - 1), Pow2(bits * (n - 1)), Pow2(bits));
    }
  }

  lemma {:induction false} NumberBound(ds: seq<nat>, b: nat)
    requires DigitsOk(ds, b) && b >= 1
    ensures 0 <= Number(ds, b) < Pow(b, |ds|)
  {
    if ds != [] {
      var init, d := ds[..|ds| - 1], ds[|ds| - 1];
      assert DigitsOk(init, b);
      NumberBound(init, b);
      BoundStep(Number(init, b), b, d, Pow(b, |init|));
    }
  }

  lemma BoundStep(x: int, b: nat, d: nat, p: nat)
    requires 0 <= x < p && d < b
    ensures 0 <= Prod(b, x) + d < b * p
  {
    MulMono(x + 1, p, b);
    Distribute(x, 1, b);
    MulMono(0, x, b);
  }

  lemma {:induction false} NumberAppend(p: seq<nat>, c: seq<nat>, b: nat)
    ensures Number(p + c, b) == Prod(Number(p, b), Pow(b, |c|)) + Number(c, b)
  {
    hide Prod;
    if c == [] {
      assert p + c == p;
      ProdIs(Number(p, b), 1);
    } else {
      var init, d := c[..|c| - 1], c[|c| - 1];
      assert c == init + [d] && p + c == (p + init) + [d];
      NumberAppend(p, init, b);
      hide Number;
      NumberSnoc(p + init, d, b);
      NumberSnoc(init, d, b);
      AppendStep(Number(p, b), Pow(b, |init|), Number(init, b), b);
    }
  }

  lemma AppendStep(x: int, p: nat, y: int, b: nat)
    ensures Prod(b, Prod(x, p) + y) == Prod(x, b * p) + Prod(b, y)
  {
    Distribute(x * p, y, b);
    Assoc(b, x, p);
    Assoc(x, b, p);
  }

  lemma {:induction false} PowMono(b: nat, m: nat, n: nat)
    requires b >= 1 && m <= n
    ensures 1 <= Pow(b, m) <= Pow(b, n)
  {
    if m < n {
      PowMono(b, m, n - 1);
      MulMono(1, b, Pow(b, n - 1));
    } else if m > 0 {
      PowMono(b, m - 1, n - 1);
      MulMono(1, b, Pow(b, m - 1));
    }
  }

  /** A chunk of digits as one number, with the power it scales what is above it by. */
  method ReadChunk(digits: seq<char>, base: nat, k: nat) returns (chunk: Limb, scale: Limb)
    requires 2 <= base <= 36 && DigitsOk(CharDigits(digits), base) && |digits| <= k && Pow(base, k) < BASE
    ensures chunk as int == Number(CharDigits(digits), base) && scale as int == Pow(base, |digits|) && chunk < scale
  {
    hide Pow, Number, Prod;
    var ds := seq(|digits|, i requires 0 <= i < |digits| => CharDigit(digits[i]));
    chunk, scale := 0, 1;
    PowNone(base);
    NumberNone(base);
    for i := 0 to |digits|
      invariant chunk as int == Number(ds[..i], base) && scale as int == Pow(base, i) && chunk < scale
    {
      hide Pow, Number, Prod;
      assert ds[..i + 1] == ds[..i] + [ds[i]];
      NumberSnoc(ds[..i], ds[i], base);
      PowStep(base, i);
      PowMono(base, i + 1, k);
      BoundStep(chunk, base, ds[i], scale);
      ProdIs(base, chunk);
      chunk := chunk * base + CharDigit(digits[i]);
      scale := scale * base;
    }
    assert ds[..|digits|] == CharDigits(digits);
  }

  lemma NumberNone(b: nat)
    ensures Number([], b) == 0
  {
  }

  lemma ScaleHead(o: seq<Limb>, i: nat, scale: int)
    requires i < |o|
    ensures Prod(Val(o[i..]), scale) == Prod(o[i], scale) + BASE * Prod(Val(o[i + 1..]), scale)
  {
    assert o[i..] == [o[i]] + o[i + 1..];
    hide Val, Prod;
    LimbStep(o[i + 1..], o[i], scale);
  }

  /** The carry stays below the scale. */
  lemma ScaleFits(x: Limb, scale: Limb, carry: nat)
    requires carry < scale
    ensures 0 <= Prod(x, scale) + carry < BASE * BASE && (Prod(x, scale) + carry) / BASE < scale &&
      (x != 0 ==> Prod(x, scale) + carry >= 1)
  {
    var cur := x * scale + carry;
    MulMono(x + 1, BASE, scale);
    Distribute(x, 1, scale);
    MulMono(0, x, scale);
    MulMono(scale, BASE, BASE);
    if x != 0 { MulMono(1, x, scale); }
    assert cur < BASE * scale;
  }

  /** out := out * scale + chunk, one more limb at most. */
  method MulAdd(out: array<Limb>, n: nat, scale: Limb, chunk: Limb, ghost value: int, ghost cap: nat) returns (n': nat)
    requires n <= out.Length && cap <= out.Length && Normalized(out[..n]) && chunk < scale
    requires value == Prod(Val(out[..n]), scale) + chunk < Pow2(32 * cap)
    modifies out
    ensures n' <= out.Length && Normalized(out[..n']) && Val(out[..n']) == value
    ensures forall k {:trigger out[k]} :: n <= cap <= k < out.Length ==> out[k] == old(out[k])
    ensures n <= cap ==> n' <= cap
  {
    hide Val, Prod, Glue, Pow2, Lo, Hi, Shift;
    var carry: Limb;
    carry := MulLimbs(out, n, scale, chunk, value);
    n' := n;
    if carry == 0 { GlueZero(out[..n]); }
    while carry != 0
      invariant n <= n' <= out.Length && (carry != 0 ==> n' == n && Glue(out[..n], carry) == value)
      invariant carry == 0 ==> Normalized(out[..n']) && Val(out[..n']) == value
      invariant (n <= cap ==> n' <= cap) && forall k {:trigger out[k]} ::
        n <= cap <= k < out.Length ==> out[k] == old(out[k])
      decreases carry
    {
      hide Val, Prod, Glue, Pow2, Shift, Lo, Hi;
      OneLimb(carry);
      GlueLarge(out[..n], carry);
      ShiftIsPow2(1, n);
      Pow2Less(32 * n, 32 * cap);
      ghost var before := out[..n];
      GlueNext(before, carry, 0, carry);
      GlueZero(before + [carry]);
      out[n'] := Lo(carry);
      assert out[..n + 1] == before + [carry];
      n' := n' + 1;
      carry := Hi(carry);
    }
  }

  method MulLimbs(out: array<Limb>, n: nat, scale: Limb, chunk: Limb, ghost value: int) returns (carry: Limb)
    requires n <= out.Length && Normalized(out[..n]) && chunk < scale && value == Prod(Val(out[..n]), scale) + chunk
    modifies out
    ensures Glue(out[..n], carry) == value && (carry == 0 ==> Normalized(out[..n]))
    ensures forall k {:trigger out[k]} :: n <= k < out.Length ==> out[k] == old(out[k])
  {
    hide Val, Prod, Glue, Lo, Hi;
    ghost var o := out[..n];
    ghost var done: seq<Limb> := [];
    ghost var tail := value;
    carry := chunk;
    assert o[0..] == o;
    GlueNil(done, tail);
    var i := 0;
    while i < n
      invariant 0 <= i <= n && carry < scale && out[..i] == done && out[i..n] == o[i..]
      invariant tail == Prod(Val(o[i..]), scale) + carry && Glue(done, tail) == value
      invariant i == n && n > 0 && carry == 0 ==> done[n - 1] != 0
      invariant forall k {:trigger out[k]} :: n <= k < out.Length ==> out[k] == old(out[k])
    {
      hide Val, Prod, Glue, Lo, Hi;
      assert out[i] == out[i..n][0] == o[i];
      ScaleFits(out[i], scale, carry);
      ProdIs(out[i], scale);
      var cur: U64 := out[i] * scale + carry;
      LoHi(cur);
      ScaleHead(o, i, scale);
      ghost var rest := Prod(Val(o[i + 1..]), scale) + Hi(cur);
      GlueNext(done, Lo(cur), rest, tail);
      HiIs(cur);
      out[i] := Lo(cur);
      assert out[..i + 1] == done + [Lo(cur)];
      assert out[i + 1..n] == o[i..][1..] == o[i + 1..];
      carry := Hi(cur);
      tail := rest;
      done := done + [Lo(cur)];
      i := i + 1;
    }
    ValNil(o[n..]);
    ProdIs(0, scale);
  }

  lemma HiIs(x: U64)
    ensures Hi(x) == x / BASE && (Hi(x) == 0 ==> Lo(x) == x)
  {
  }

  lemma OneLimb(x: Limb)
    ensures Lo(x) == x && Hi(x) == 0
  {
  }

  lemma ReadBound(digits: seq<char>, pos: nat, base: nat, cap: nat)
    requires base >= 2 && pos <= |digits| && DigitsOk(CharDigits(digits), base) && cap == StringLimbs(|digits|, base)
    ensures DigitsOk(CharDigits(digits[..pos]), base) && Number(CharDigits(digits[..pos]), base) < Pow2(32 * (cap - 1))
  {
    var ds := CharDigits(digits[..pos]);
    forall i | 0 <= i < |ds| ensures ds[i] < base { assert ds[i] == CharDigits(digits)[i]; }
    hide Number, Pow, Pow2;
    NumberBound(ds, base);
    PowMono(base, pos, |digits|);
    LimbsSuffice(|digits|, base);
  }

  lemma ReadOn(digits: seq<char>, pos: nat, take: nat, base: nat)
    requires pos + take <= |digits| && DigitsOk(CharDigits(digits), base)
    ensures DigitsOk(CharDigits(digits[pos..pos + take]), base)
    ensures Number(CharDigits(digits[..pos + take]), base) ==
      Prod(Number(CharDigits(digits[..pos]), base), Pow(base, take)) + Number(CharDigits(digits[pos..pos + take]), base)
  {
    hide Number, Pow, Prod;
    var c := CharDigits(digits[pos..pos + take]);
    forall i | 0 <= i < |c| ensures c[i] < base { assert c[i] == CharDigits(digits)[pos + i]; }
    assert CharDigits(digits[..pos + take]) == CharDigits(digits[..pos]) + c;
    NumberAppend(CharDigits(digits[..pos]), c, base);
  }

  /** bigIntFromString: the value of the digits, normalized, within the limbs
      bigIntFromStringSize asks for. */
  method FromString(digits: seq<char>, base: nat, out: array<Limb>) returns (n: nat)
    requires 2 <= base <= 36 && DigitsOk(CharDigits(digits), base) && out.Length >= StringLimbs(|digits|, base)
    modifies out
    ensures n <= out.Length && Normalized(out[..n]) && Val(out[..n]) == Number(CharDigits(digits), base)
    ensures forall k {:trigger out[k]} :: StringLimbs(|digits|, base) <= k < out.Length ==> out[k] == old(out[k])
  {
    hide Val, Number, Pow, Prod, Pow2, StringLimbs;
    var cap := FromStringSize(|digits|, base);
    LimbsSuffice(|digits|, base);
    forall k | 0 <= k < cap { out[k] := 0; }
    n := 0;
    var chunkBase, chunkDigits := Chunk(base);
    var pos := 0;
    ValNil(out[..0]);
    assert CharDigits(digits[..0]) == [];
    NumberNone(base);
    while pos < |digits|
      invariant 0 <= pos <= |digits| && n <= cap - 1 && Normalized(out[..n]) &&
        Val(out[..n]) == Number(CharDigits(digits[..pos]), base)
      invariant forall k {:trigger out[k]} :: cap <= k < out.Length ==> out[k] == old(out[k])
    {
      hide Val, Number, Pow, Prod, Pow2, StringLimbs;
      var take := if |digits| - pos < chunkDigits then |digits| - pos else chunkDigits;
      ReadOn(digits, pos, take, base);
      ReadBound(digits, pos + take, base, cap);
      var chunk, scale := ReadChunk(digits[pos..pos + take], base, chunkDigits);
      n := MulAdd(out, n, scale, chunk, Number(CharDigits(digits[..pos + take]), base), cap - 1);
      pos := pos + take;
    }
    assert digits[..|digits|] == digits;
    var m := Normalize(out[..n]);
    assert out[..n][..m] == out[..m];
    n := m;
  }

  // ----- round trips -----

  lemma CanonicalDigits(s: seq<char>, base: nat)
    requires Canonical(s, base)
    ensures DigitsOk(CharDigits(s), base)
  {
    forall i | 0 <= i < |s| ensures CharDigits(s)[i] < base { var _ := s[i]; }
  }

  /** Printing and parsing gives back the magnitude. */
  method PrintThenParse(a: seq<Limb>, base: nat) returns (b: seq<Limb>)
    requires 2 <= base <= 36 && Normalized(a)
    ensures b == a
  {
    hide Val, Number, Canonical, DigitsOk;
    var text := new char[32 * |a| + 1];
    var written := ToString(a, base, text);
    CanonicalDigits(text[..written], base);
    var cap := FromStringSize(written, base);
    var limbs := new Limb[cap](_ => 0);
    var n := FromString(text[..written], base, limbs);
    b := limbs[..n];
    NormalizedUnique(a, b);
  }

  lemma DigitUnique(x: int, y: int, d: nat, e: nat, b: nat)
    requires d < b && e < b && Prod(b, x) + d == Prod(b, y) + e
    ensures x == y && d == e
  {
    if x < y { MulMono(x + 1, y, b); Distribute(x, 1, b); }
    if y < x { MulMono(y + 1, x, b); Distribute(y, 1, b); }
  }

  lemma {:induction false} LeadingDigit(ds: seq<nat>, b: nat)
    requires ds != [] && ds[0] != 0 && b >= 1
    ensures Number(ds, b) >= 1
  {
    hide Prod;
    if |ds| == 1 {
      assert ds[..0] == [];
      ProdIs(b, 0);
    } else {
      var init := ds[..|ds| - 1];
      LeadingDigit(init, b);
      ProdIs(b, Number(init, b));
      MulMono(1, Number(init, b), b);
    }
  }

  ghost predicate NoLeadingZero(ds: seq<nat>)
  {
    ds != [] ==> ds[0] != 0
  }

  lemma {:induction false} DigitsUnique(ds: seq<nat>, es: seq<nat>, b: nat)
    requires DigitsOk(ds, b) && DigitsOk(es, b) && NoLeadingZero(ds) && NoLeadingZero(es) &&
      Number(ds, b) == Number(es, b) && b >= 1
    ensures ds == es
  {
    if ds == [] || es == [] {
      if ds != [] { LeadingDigit(ds, b); }
      if es != [] { LeadingDigit(es, b); }
    } else {
      var init, init' := ds[..|ds| - 1], es[..|es| - 1];
      DigitUnique(Number(init, b), Number(init', b), ds[|ds| - 1], es[|es| - 1], b);
      hide Number;
      assert DigitsOk(init, b) && DigitsOk(init', b) && NoLeadingZero(init) && NoLeadingZero(init');
      DigitsUnique(init, init', b);
      assert ds == init + [ds[|ds| - 1]] && es == init' + [es[|es| - 1]];
    }
  }

  /** A number has one canonical text. */
  lemma TextUnique(s: seq<char>, t: seq<char>, base: nat)
    requires Canonical(s, base) && Canonical(t, base) && base >= 2 &&
      Number(CharDigits(s), base) == Number(CharDigits(t), base)
    ensures s == t
  {
    var ds, es := CharDigits(s), CharDigits(t);
    CanonicalDigits(s, base);
    CanonicalDigits(t, base);
    SameDigits(ds, es, base) by { LeadingZero(s, base); LeadingZero(t, base); }
    hide Number;
    forall i | 0 <= i < |s| ensures s[i] == t[i] {
      assert ds[i] == es[i] && s[i] == DigitChar(CharDigit(s[i])) && t[i] == DigitChar(CharDigit(t[i]));
    }
  }

  lemma LeadingZero(s: seq<char>, base: nat)
    requires Canonical(s, base)
    ensures |s| > 1 ==> NoLeadingZero(CharDigits(s))
  {
    assert s[0] == DigitChar(CharDigit(s[0]));
    CharOfDigit(CharDigit(s[0]));
  }

  lemma SameDigits(ds: seq<nat>, es: seq<nat>, b: nat)
    requires DigitsOk(ds, b) && DigitsOk(es, b) && b >= 2 && Number(ds, b) == Number(es, b) && |ds| >= 1 && |es| >= 1
    requires (|ds| > 1 ==> NoLeadingZero(ds)) && (|es| > 1 ==> NoLeadingZero(es))
    ensures ds == es
  {
    if ds[0] == 0 || es[0] == 0 {
      ZeroDigits(ds, b);
      ZeroDigits(es, b);
      hide Number;
      if ds[0] != 0 { LeadingDigit(ds, b); }
      if es[0] != 0 { LeadingDigit(es, b); }
    } else {
      DigitsUnique(ds, es, b);
    }
  }

  lemma ZeroDigits(ds: seq<nat>, b: nat)
    requires |ds| >= 1
    ensures |ds| == 1 && ds[0] == 0 ==> Number(ds, b) == 0
  {
    assert |ds| == 1 ==> ds[..0] == [];
    ProdIs(b, 0);
  }

  /** Parsing and printing gives back any canonical text. */
  method ParseThenPrint(s: seq<char>, base: nat) returns (t: seq<char>)
    requires 2 <= base <= 36 && Canonical(s, base)
    ensures t == s
  {
    hide Val, Number, Canonical, DigitsOk;
    CanonicalDigits(s, base);
    var cap := FromStringSize(|s|, base);
    var limbs := new Limb[cap](_ => 0);
    var n := FromString(s, base, limbs);
    var text := new char[32 * n + 1];
    var written := ToString(limbs[..n], base, text);
    t := text[..written];
    TextUnique(s, t, base);
  }
}
