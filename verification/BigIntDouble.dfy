/** Bits of a magnitude and its conversion to a double (vm/runtime/BigInt.c:450-462, 496-503,
    566-610). A double is its integer mantissa and exponent, or infinity where ldexp overflows. */
module BigIntDouble {
  import opened Limbs
  import opened BigIntShift
  import opened BigIntGcd

  ghost function Whole(x: nat, m: nat): nat
    requires m >= 1
  {
    DivSmaller(x, m);
    x / m
  }

  /** v >> b, v's bit at b, and the bits of v below b. */
  ghost function High(v: nat, b: nat): nat { Whole(v, Pow2(b)) }
  ghost function Bit(v: nat, b: nat): nat { High(v, b) % 2 }
  ghost function Low(v: nat, b: nat): nat { v % Pow2(b) }

  lemma Parts(v: nat, b: nat)
    ensures v == Prod(High(v, b), Pow2(b)) + Low(v, b) && 0 <= Low(v, b) < Pow2(b)
  {
  }

  /** Both parts are determined by the sum. */
  lemma PartsAre(v: nat, b: nat, high: nat, low: nat)
    requires v == Prod(high, Pow2(b)) + low && low < Pow2(b)
    ensures High(v, b) == high && Low(v, b) == low
  {
    DivUnique(v, high, low, Pow2(b));
  }

  /** One bit more or less. */
  lemma BitStep(v: nat, b: nat)
    ensures High(v, b) == 2 * High(v, b + 1) + Bit(v, b)
    ensures Low(v, b + 1) == Prod(Bit(v, b), Pow2(b)) + Low(v, b)
    ensures Bit(v, b) <= 1
  {
    Parts(v, b);
    hide High, Low;
    var h, p := High(v, b), Pow2(b);
    var c := h % 2;
    assert h == 2 * (h / 2) + c;
    StepArith(h / 2, c, p, Low(v, b));
    PartsAre(v, b + 1, h / 2, Prod(c, p) + Low(v, b));
  }

  lemma StepArith(q: nat, c: nat, p: nat, r: nat)
    requires c <= 1 && r < p
    ensures Prod(2 * q + c, p) + r == Prod(q, 2 * p) + (Prod(c, p) + r) && 0 <= Prod(c, p) + r < 2 * p
  {
    Distribute(2 * q, c, p);
    DoubleMul(q, p);
    Assoc(q, 2, p);
    assert c * p == if c == 0 then 0 else p;
  }

  // ----- bits of limbs -----

  /** The limb at index l, as the high part of the value at 32 * l. */
  lemma LimbHigh(a: seq<Limb>, l: nat)
    requires l < |a|
    ensures High(Val(a), 32 * l) == a[l] + BASE * Val(a[l + 1..])
  {
    hide Val, Shift, Pow2, High, Low;
    ValSplit(a, l);
    ValBound(a[..l]);
    ShiftIsPow2(Val(a[l..]), l);
    ShiftIsPow2(1, l);
    ValHead(a, l);
    ProdIs(Val(a[l..]), Pow2(32 * l));
    PartsAre(Val(a), 32 * l, Val(a[l..]), Val(a[..l]));
  }

  lemma HighHigh(v: nat, m: nat, n: nat)
    ensures High(v, m + n) == High(High(v, m), n)
  {
    Parts(v, m);
    Parts(High(v, m), n);
    hide High, Low, Pow2;
    var h, r, q, s := High(v, m), Low(v, m), High(High(v, m), n), Low(High(v, m), n);
    Pow2Add(m, n);
    HighArith(q, Pow2(n), s, Pow2(m), r);
    PartsAre(v, m + n, q, Prod(s, Pow2(m)) + r);
  }

  lemma HighArith(q: nat, pn: nat, s: nat, pm: nat, r: nat)
    requires s < pn && r < pm
    ensures Prod(Prod(q, pn) + s, pm) + r == Prod(q, pm * pn) + (Prod(s, pm) + r) && 0 <= Prod(s, pm) + r < pm * pn
  {
    Distribute(q * pn, s, pm);
    Assoc(q, pn, pm);
    assert pn * pm == pm * pn;
    MulMono(s + 1, pn, pm);
    Distribute(s, 1, pm);
    MulMono(0, s, pm);
  }

  /** Below a limb's top the limbs above it do not matter. */
  lemma LimbBit(x: Limb, rest: nat, s: nat)
    requires s < 32
    ensures Bit(x + BASE * rest, s) == Bit(x, s)
  {
    hide High, Low, Pow2, Prod;
    var p, n := Pow2(s), Pow2(31 - s);
    var h := High(x, s);
    Parts(x, s);
    Pow2Add(s, 31 - s);
    Pow2Half();
    LimbArith(h, p, Low(x, s), n, rest);
    var t := Prod(n, rest);
    PartsAre(x + BASE * rest, s, h + 2 * t, Low(x, s));
    EvenMore(h, t);
  }

  lemma EvenMore(h: nat, t: nat)
    ensures (h + 2 * t) % 2 == h % 2
  {
  }

  lemma Pow2Half()
    ensures 2 * Pow2(31) == BASE
  {
    Pow2Limb();
  }

  lemma LimbArith(h: nat, p: nat, r: nat, n: nat, rest: nat)
    requires 2 * (p * n) == BASE
    ensures Prod(h, p) + r + BASE * rest == Prod(h + 2 * Prod(n, rest), p) + r && Prod(n, rest) >= 0
  {
    Distribute(h, 2 * (n * rest), p);
    DoubleMul(n * rest, p);
    Assoc(n, rest, p);
    Assoc(p, n, rest);
    assert (n * rest) * p == (p * n) * rest;
    MulMono(0, n, rest);
  }

  /** bigIntBitAt. */
  method BitAt(a: seq<Limb>, index: nat) returns (r: nat)
    ensures r == Bit(Val(a), index)
  {
    hide Val, High, Low, Pow2;
    var limb := index / 32;
    if limb >= |a| {
      NoBit(a, index);
      return 0;
    }
    LimbHigh(a, limb);
    HighHigh(Val(a), 32 * limb, index % 32);
    LimbBit(a[limb], Val(a[limb + 1..]), index % 32);
    ShrHigh(a[limb], index % 32);
    r := ShrLimb(a[limb], index % 32) % 2;
  }

  lemma ShrHigh(x: Limb, s: nat)
    requires s < 32
    ensures ShrLimb(x, s) == High(x, s)
  {
  }

  lemma NoBit(a: seq<Limb>, index: nat)
    requires index / 32 >= |a|
    ensures Bit(Val(a), index) == 0
  {
    hide Val, Low, Pow2;
    ShiftedAway(a, index);
  }

  /** bigIntHighBit: the number of significant bits. */
  method HighBit(a: seq<Limb>) returns (bits: nat)
    requires Normalized(a)
    ensures Val(a) < Pow2(bits) && (bits > 0 ==> Pow2(bits - 1) <= Val(a)) && (bits == 0 <==> a == [])
  {
    hide Val, High, Low, Pow2, Prod;
    if |a| == 0 {
      ValNil(a);
      Pow2None();
      return 0;
    }
    var top: nat := a[|a| - 1];
    ghost var x := top;
    var bit := 0;
    TopStart(x);
    while top != 0
      invariant 0 <= top && x < Prod(top + 1, Pow2(bit)) && (top > 0 ==> Prod(top, Pow2(bit)) <= x)
      invariant top == 0 ==> bit >= 1 && Pow2(bit - 1) <= x
      decreases top
    {
      hide Val, High, Low, Pow2, Prod;
      TopStep(x, top, bit);
      top := top / 2;
      bit := bit + 1;
    }
    ProdOne(Pow2(bit));
    bits := (|a| - 1) * 32 + bit;
    TopBits(a, x, bit);
  }

  lemma Pow2None()
    ensures Pow2(0) == 1
  {
  }

  lemma ProdOne(p: nat)
    ensures Prod(1, p) == p && Prod(0, p) == 0
  {
  }

  lemma TopStart(x: nat)
    ensures x < Prod(x + 1, Pow2(0)) && Prod(x, Pow2(0)) <= x
  {
  }

  lemma TopStep(x: nat, top: nat, bit: nat)
    requires top > 0 && Prod(top, Pow2(bit)) <= x < Prod(top + 1, Pow2(bit))
    ensures x < Prod(top / 2 + 1, Pow2(bit + 1)) && (top / 2 > 0 ==> Prod(top / 2, Pow2(bit + 1)) <= x) &&
      (top / 2 == 0 ==> Pow2(bit) <= x)
  {
    var p := Pow2(bit);
    MulMono(top + 1, 2 * (top / 2 + 1), p);
    MulMono(2 * (top / 2), top, p);
    DoubleMul(top / 2 + 1, p);
    DoubleMul(top / 2, p);
    Assoc(top / 2 + 1, 2, p);
    Assoc(top / 2, 2, p);
    MulMono(1, top, p);
  }

  lemma TopBits(a: seq<Limb>, x: nat, bit: nat)
    requires a != [] && x == a[|a| - 1] && bit >= 1 && Pow2(bit - 1) <= x < Pow2(bit)
    ensures Pow2((|a| - 1) * 32 + bit - 1) <= Val(a) < Pow2((|a| - 1) * 32 + bit)
  {
    hide Val, High, Low, Pow2, Prod;
    var n := |a| - 1;
    LimbHigh(a, n);
    ValNil(a[n + 1..]);
    Parts(Val(a), 32 * n);
    Pow2Add(32 * n, bit - 1);
    Pow2Add(32 * n, bit);
    TopArith(x, Pow2(32 * n), Low(Val(a), 32 * n), Pow2(bit - 1), Pow2(bit));
  }

  lemma TopArith(x: nat, p: nat, r: nat, lo: nat, hi: nat)
    requires lo <= x < hi && r < p
    ensures p * lo <= Prod(x, p) + r < p * hi
  {
    MulMono(lo, x, p);
    MulMono(x + 1, hi, p);
    Distribute(x, 1, p);
  }

  // ----- rounding -----

  /** The double mantissa * 2^exponent, or infinity. */
  datatype Double = Huge | Double(mantissa: nat, exponent: nat)

  ghost function Value(d: Double): nat
    requires d.Double?
  {
    d.mantissa * Pow2(d.exponent)
  }

  /** w is v rounded to a multiple of the unit u, ties to the even multiple. */
  ghost predicate NearestEven(v: nat, w: nat, u: nat)
  {
    exists n: nat {:trigger Prod(n, u)} ::
      && w == Prod(n, u)
      && 2 * v <= 2 * w + u && 2 * w <= 2 * v + u
      && (2 * v == 2 * w + u || 2 * w == 2 * v + u ==> n % 2 == 0)
  }

  /** The top 54 bits, or all there are, and how many. */
  method TopDigits(a: seq<Limb>, bits: nat) returns (mantissa: nat, bit: nat)
    requires Val(a) < Pow2(bits)
    ensures mantissa == High(Val(a), bit) && bit == if bits <= 54 then 0 else bits - 54
  {
    hide Val, High, Low, Pow2, Prod;
    mantissa, bit := 0, bits;
    var taken := 0;
    NoHigh(Val(a), bits);
    while taken < 54 && bit > 0
      invariant bit + taken == bits && taken <= 54 && mantissa == High(Val(a), bit)
      decreases bit
    {
      hide Val, High, Low, Pow2, Prod;
      bit := bit - 1;
      BitStep(Val(a), bit);
      var b := BitAt(a, bit);
      mantissa := 2 * mantissa + b;
      taken := taken + 1;
    }
  }

  lemma NoHigh(v: nat, b: nat)
    requires v < Pow2(b)
    ensures High(v, b) == 0
  {
    ProdOne(Pow2(b));
    PartsAre(v, b, 0, v);
  }

  /** Whether anything below bit is set. */
  method Sticky(a: seq<Limb>, bit: nat) returns (sticky: bool)
    ensures sticky <==> Low(Val(a), bit) != 0
  {
    hide Val, High, Low, Pow2, Prod, Bit;
    sticky := false;
    var i := bit;
    while i > 0
      invariant 0 <= i <= bit && Low(Val(a), bit) == Low(Val(a), i)
    {
      hide Val, High, Low, Pow2, Prod, Bit;
      BitStep(Val(a), i - 1);
      Parts(Val(a), i - 1);
      var b := BitAt(a, i - 1);
      ProdOne(Pow2(i - 1));
      if b != 0 {
        sticky := true;
        return;
      }
      i := i - 1;
    }
    NoLow(Val(a));
  }

  lemma NoLow(v: nat)
    ensures Low(v, 0) == 0
  {
  }

  lemma HighBound(v: nat, b: nat, n: nat)
    requires v < Pow2(b + n)
    ensures High(v, b) < Pow2(n)
  {
    Parts(v, b);
    Pow2Add(b, n);
    hide High, Low, Pow2;
    HighSmall(High(v, b), Pow2(b), Low(v, b), Pow2(n));
  }

  lemma HighSmall(h: nat, p: nat, r: nat, n: nat)
    requires Prod(h, p) + r < p * n && r >= 0 && p >= 1
    ensures h < n
  {
    if h >= n { MulMono(n, h, p); }
  }

  /** The rounded mantissa: up past half, and at half if it is odd. */
  function RoundedUp(m: nat, roundBit: nat, sticky: bool): nat
  {
    if roundBit == 1 && (sticky || m % 2 == 1) then m + 1 else m
  }

  lemma Rounds(v: nat, m: nat, c: nat, p: nat, low: nat)
    requires c <= 1 && low < p && v == Prod(2 * m + c, p) + low
    ensures NearestEven(v, Prod(RoundedUp(m, c, low != 0), 2 * p), 2 * p)
  {
    StepArith(m, c, p, low);
    var u := 2 * p;
    ProdIs(m, u);
    Distribute(m, 1, u);
    assert Prod(m + 1, u) == Prod(m, u) + u;
    ProdOne(p);
    hide Prod;
    var n := RoundedUp(m, c, low != 0);
    var w := Prod(n, u);
    assert v == Prod(m, u) + (if c == 0 then 0 else p) + low;
  }

  lemma Halved(m: nat, e: nat)
    ensures (2 * m) * Pow2(e) == m * Pow2(e + 1)
  {
    DoubleMul(m, Pow2(e));
    Assoc(m, 2, Pow2(e));
  }

  lemma Pow2Value()
    ensures Pow2(52) == 0x10_0000_0000_0000 && Pow2(53) == 0x20_0000_0000_0000
  {
    Pow2Limb();
    Pow2Add(10, 10);
    assert Pow2(10) == 1024;
    Pow2Add(20, 32);
  }

  /** The rounding of bigIntToDouble, for a magnitude of bits bits. */
  method Round(a: seq<Limb>, bits: nat) returns (m: nat, e: nat)
    requires 1 <= bits && Pow2(bits - 1) <= Val(a) < Pow2(bits)
    ensures m < Pow2(53)
    ensures bits <= 53 ==> m * Pow2(e) == Val(a)
    ensures bits >= 54 ==> NearestEven(Val(a), m * Pow2(e), Pow2(bits - 53))
  {
    hide Val, High, Low, Pow2, Prod, NearestEven;
    Pow2Value();
    var mantissa, bit := TopDigits(a, bits);
    var sticky := Sticky(a, bit);
    if bits < 54 {
      Pow2Mono(bits, 53);
      Unshifted(Val(a));
      return mantissa, 0;
    }
    Parts(Val(a), bit);
    HighBound(Val(a), bit, 54);
    Pow2Next(53);
    Pow2Next(bit);
    var roundBit := mantissa % 2;
    m := mantissa / 2;
    e := bit + 1;
    Rounds(Val(a), m, roundBit, Pow2(bit), Low(Val(a), bit));
    ProdIs(RoundedUp(m, roundBit, sticky), Pow2(e));
    if roundBit == 1 && (sticky || m % 2 == 1) {
      m := m + 1;
      if m == 0x20_0000_0000_0000 {
        Halved(0x10_0000_0000_0000, e);
        m, e := m / 2, e + 1;
      }
    }
  }

  /** ldexp of a mantissa that a double holds: exact, or infinite past the largest double. */
  function Ldexp(m: nat, e: nat): Double
  {
    if m * PowTwo(e) >= PowTwo(1024) then Huge else Double(m, e)
  }

  /** The largest finite double. */
  ghost function MaxDouble(): nat
  {
    (Pow2(53) - 1) * Pow2(971)
  }

  lemma MaxIs()
    ensures MaxDouble() == Pow2(1024) - Pow2(971)
  {
    hide Pow2;
    Pow2Add(53, 971);
    Distribute(Pow2(53), 1, Pow2(971));
  }

  lemma SmallExponent(m: nat, e: nat)
    requires m < Pow2(53) && e <= 971
    ensures m * Pow2(e) <= MaxDouble()
  {
    hide Pow2;
    Pow2Mono(e, 971);
    MulMono(Pow2(e), Pow2(971), m);
    MulMono(m, Pow2(53) - 1, Pow2(971));
  }

  /** A multiple of p below q * p is at most q * p - p. */
  lemma BelowMultiple(m: nat, p: nat, q: nat)
    requires m * p < q * p
    ensures m * p <= q * p - p
  {
    if m >= q { MulMono(q, m, p); }
    MulMono(m, q - 1, p);
    Distribute(q, 1, p);
  }

  lemma LargeExponent(m: nat, e: nat)
    requires 971 < e < 1024 && m * Pow2(e) < Pow2(1024)
    ensures m * Pow2(e) <= MaxDouble()
  {
    hide Pow2, MaxDouble;
    MaxIs();
    Pow2Add(1024 - e, e);
    Pow2Mono(971, e);
    BelowMultiple(m, Pow2(e), Pow2(1024 - e));
  }

  lemma HugeExponent(m: nat, e: nat)
    requires 1024 <= e && m * Pow2(e) < Pow2(1024)
    ensures m * Pow2(e) <= MaxDouble()
  {
    hide Pow2, MaxDouble;
    Pow2Mono(1024, e);
    Pow2Mono(971, 1024);
    MaxIs();
    ProdOne(Pow2(e));
    if m > 0 { MulMono(1, m, Pow2(e)); }
  }

  /** A value below 2^1024 with a 53-bit mantissa is at most the largest double. */
  lemma FiniteBound(m: nat, e: nat)
    requires m < Pow2(53) && m * Pow2(e) < Pow2(1024)
    ensures m * Pow2(e) <= MaxDouble()
  {
    hide Pow2, MaxDouble;
    if e <= 971 { SmallExponent(m, e); } else if e < 1024 { LargeExponent(m, e); } else { HugeExponent(m, e); }
  }

  /** At 1024 bits rounding reaches 2^1024 exactly from the midpoint above the largest double. */
  lemma Overflows(v: nat, w: nat)
    requires v < Pow2(1024) && NearestEven(v, w, Pow2(971))
    ensures w >= Pow2(1024) <==> v >= Pow2(1024) - Pow2(970)
  {
    hide Pow2, Prod;
    var u := Pow2(971);
    var n: nat :| w == Prod(n, u) && 2 * v <= 2 * w + u && 2 * w <= 2 * v + u
      && (2 * v == 2 * w + u || 2 * w == 2 * v + u ==> n % 2 == 0);
    Pow2Add(53, 971);
    Pow2Next(970);
    Pow2Next(52);
    Multiples(n, Pow2(53), u);
  }

  /** The multiples of u around k * u. */
  lemma Multiples(n: nat, k: nat, u: nat)
    requires k >= 2
    ensures n <= k - 2 ==> Prod(n, u) <= k * u - 2 * u
    ensures n == k - 1 ==> Prod(n, u) == k * u - u
    ensures n >= k ==> Prod(n, u) >= k * u
  {
    Distribute(k, 1, u);
    Distribute(k, 2, u);
    if n <= k - 2 { MulMono(n, k - 2, u); }
    if n >= k { MulMono(k, n, u); }
  }

  lemma SmallNeverOverflows(v: nat, w: nat, bits: nat)
    requires 54 <= bits <= 1023 && v < Pow2(bits) && NearestEven(v, w, Pow2(bits - 53))
    ensures w < Pow2(1024) && v < Pow2(1024) - Pow2(970)
  {
    hide Pow2, Prod;
    Pow2Mono(bits, 1023);
    Pow2Mono(bits - 53, 1023);
    Pow2Mono(970, 1023);
    Pow2Next(1023);
    Pow2Mono(970, 1022);
    Pow2Next(1022);
    Pow2Mono(bits - 53, 1022);
  }

  /** bigIntToDouble: correctly rounded, half to even, infinite exactly from the midpoint above
      the largest double on; ulp is the exponent of the last place. */
  method ToDouble(a: seq<Limb>) returns (r: Double, ghost ulp: nat)
    requires Normalized(a)
    ensures r.Huge? <==> Val(a) >= Pow2(1024) - Pow2(970)
    ensures r.Double? ==> r.mantissa < Pow2(53) && Value(r) <= MaxDouble()
    ensures Val(a) < Pow2(53) ==> r.Double? && Value(r) == Val(a)
    ensures Pow2(53) <= Val(a) && r.Double? ==>
              Pow2(ulp + 52) <= Val(a) < Pow2(ulp + 53) && NearestEven(Val(a), Value(r), Pow2(ulp))
  {
    hide Val, Pow2, Prod, NearestEven, MaxDouble;
    ulp := 0;
    var bits := HighBit(a);
    Pow2Mono(970, 1023);
    Pow2Next(1023);
    Pow2Mono(53, 1023);
    if bits == 0 {
      ValNil(a);
      FiniteBound(0, 0);
      ProdOne(Pow2(0));
      return Double(0, 0), 0;
    }
    if bits > 1024 {
      Pow2Mono(1024, bits - 1);
      return Huge, 0;
    }
    var m, e := Round(a, bits);
    r := Ldexp(m, e);
    LdexpIs(m, e);
    hide Ldexp, Value;
    if bits <= 53 {
      Pow2Mono(bits, 53);
    } else {
      ulp := bits - 53;
      Pow2Mono(53, bits - 1);
      if bits == 1024 {
        Overflows(Val(a), m * Pow2(e));
      } else {
        SmallNeverOverflows(Val(a), m * Pow2(e), bits);
      }
    }
  }

  lemma LdexpIs(m: nat, e: nat)
    requires m < Pow2(53)
    ensures Ldexp(m, e).Huge? <==> m * Pow2(e) >= Pow2(1024)
    ensures Ldexp(m, e).Double? ==> Ldexp(m, e).mantissa == m && Value(Ldexp(m, e)) == m * Pow2(e) <= MaxDouble()
  {
    hide Pow2, MaxDouble;
    if m * Pow2(e) < Pow2(1024) { FiniteBound(m, e); }
  }

  /** Below 2^1024 is not enough to stay finite: 1024 one-bits round up to 2^1024. */
  lemma AllOnes(a: seq<Limb>)
    requires |a| == 32 && forall i {:trigger a[i]} :: 0 <= i < 32 ==> a[i] == 0xFFFF_FFFF
    ensures Pow2(1024) - Pow2(970) <= Val(a) < Pow2(1024)
  {
    OnesValue(a);
    hide Val, Pow2, Shift;
    ShiftIsPow2(1, 32);
    Pow2Mono(0, 970);
    assert Pow2(0) == 1 by { Pow2None(); }
  }

  lemma {:induction false} OnesValue(a: seq<Limb>)
    requires forall i {:trigger a[i]} :: 0 <= i < |a| ==> a[i] == 0xFFFF_FFFF
    ensures Val(a) == Shift(1, |a|) - 1
  {
    if a != [] { OnesValue(a[1..]); }
  }

  lemma Pow2Next(n: nat)
    ensures Pow2(n + 1) == 2 * Pow2(n)
  {
  }

  lemma Unshifted(v: nat)
    ensures High(v, 0) == v && v * Pow2(0) == v
  {
  }
}
