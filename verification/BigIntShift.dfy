/** Bit shifts of magnitudes (vm/runtime/BigInt.c:407-479) and the limb-pair
    expressions shared with the division kernel's normalization. */
module BigIntShift {
  import opened Limbs

  ghost function Pow2(k: nat): (p: nat)
    ensures p >= 1
  {
    if k == 0 then 1 else 2 * Pow2(k - 1)
  }

  lemma {:induction false} Pow2Add(j: nat, k: nat)
    ensures Pow2(j + k) == Pow2(j) * Pow2(k)
  {
    if j > 0 {
      Pow2Add(j - 1, k);
      DoubleMul(Pow2(j - 1), Pow2(k));
    }
  }

  lemma {:induction false} Pow2Mono(j: nat, k: nat)
    requires j <= k
    ensures Pow2(j) <= Pow2(k)
  {
    if j < k { Pow2Mono(j, k - 1); }
  }

  lemma DoubleMul(x: int, y: int)
    ensures (2 * x) * y == 2 * (x * y)
  {
  }

  function PowTwo(k: nat): (p: nat)
    ensures p == Pow2(k)
  {
    if k == 0 then 1 else 2 * PowTwo(k - 1)
  }

  lemma Pow2Limb()
    ensures Pow2(32) == BASE
  {
    assert Pow2(4) == 16;
    Pow2Add(4, 4);
    Pow2Add(8, 8);
    Pow2Add(16, 16);
  }

  lemma Complement(s: nat)
    requires s <= 32
    ensures Pow2(s) * Pow2(32 - s) == BASE
  {
    Pow2Add(s, 32 - s);
    Pow2Limb();
  }

  /** x << s with the bits past a limb dropped, as a multiple of m = 2^s: (x mod n) * m
      where m * n = BASE. */
  lemma ShiftedLimb(x: Limb, m: nat, n: nat)
    requires m >= 1 && n >= 1 && m * n == BASE
    ensures x * m == (x % n) * m + BASE * (x / n)
    ensures (x * m) % BASE == (x % n) * m
    ensures 0 <= (x % n) * m <= BASE - m && 0 <= x / n < m
  {
    var q, r := x / n, x % n;
    assert x == q * n + r;
    Distribute(q * n, r, m);
    assert (q * n) * m == q * BASE by { Assoc(q, n, m); }
    MulMono(r, n - 1, m);
    Distribute(n, 1, m);
    MulMono(0, r, m);
    if q >= m { MulMono(m, q, n); }
    ModUnique(x * m, q, r * m);
  }

  lemma Assoc(x: int, y: int, z: int)
    ensures (x * y) * z == x * (y * z)
  {
  }

  lemma ModUnique(x: int, q: int, r: int)
    requires x == BASE * q + r && 0 <= r < BASE
    ensures x % BASE == r && x / BASE == q
  {
  }

  lemma MultipleMod(k: int, m: int)
    requires m >= 1
    ensures (k * m) % m == 0
  {
    DivUnique(k * m, k, 0, m);
  }

  /** Bitwise or of a multiple of m = 2^s and a value below m: the bits are disjoint, so
      it is their sum. The precondition is the disjointness. */
  function Or(hi: int, lo: int, ghost m: nat): (r: Limb)
    requires m >= 1 && hi % m == 0 && 0 <= lo < m && 0 <= hi <= BASE - m
  {
    hi + lo
  }

  /** x << s on a 32-bit limb. */
  function ShlLimb(x: Limb, s: nat): Limb { (x * PowTwo(s)) % BASE }

  /** x >> s on a 32-bit limb. */
  function ShrLimb(x: Limb, s: nat): Limb
  {
    DivSmaller(x, Pow2(s));
    x / PowTwo(s)
  }

  lemma DivSmaller(x: nat, m: nat)
    requires m >= 1
    ensures 0 <= x / m <= x
  {
    var q := x / m;
    assert x == m * q + x % m;
    if q < 0 { MulMono(q, -1, m); } else { MulMono(1, m, q); }
  }

  /** The two halves of a limb pair have disjoint bits. */
  lemma Disjoint(hi: Limb, lo: Limb, s: nat)
    requires 0 < s < 32
    ensures var m := Pow2(s); ShlLimb(hi, s) % m == 0 && ShlLimb(hi, s) <= BASE - m && ShrLimb(lo, 32 - s) < m
  {
    Complement(s);
    ShiftedLimb(hi, Pow2(s), Pow2(32 - s));
    ShiftedLimb(lo, Pow2(s), Pow2(32 - s));
    MultipleMod(hi % Pow2(32 - s), Pow2(s));
  }

  /** (hi << s) | (lo >> (32 - s)), 0 < s < 32. */
  function ShlPair(hi: Limb, lo: Limb, s: nat): (r: Limb)
    requires 0 < s < 32
    ensures r == (hi * Pow2(s)) % BASE + lo / Pow2(32 - s)
  {
    Disjoint(hi, lo, s);
    Or(ShlLimb(hi, s), ShrLimb(lo, 32 - s), Pow2(s))
  }

  /** (lo >> s) | (hi << (32 - s)), 0 < s < 32. */
  function ShrPair(lo: Limb, hi: Limb, s: nat): (r: Limb)
    requires 0 < s < 32
    ensures r == lo / Pow2(s) + (hi * Pow2(32 - s)) % BASE
  {
    ShlPair(hi, lo, 32 - s)
  }

  /** Limb k of a >> s, the limb above supplying the incoming bits. */
  function ShrAt(a: seq<Limb>, k: nat, s: nat): Limb
    requires k < |a| && 0 < s < 32
  {
    ShrPair(a[k], if k + 1 < |a| then a[k + 1] else 0, s)
  }

  function Under(a: seq<Limb>, k: nat, below: Limb): Limb
    requires k <= |a|
  {
    if k > 0 then a[k - 1] else below
  }

  ghost predicate ShiftedUp(below: Limb, a: seq<Limb>, out: seq<Limb>, s: nat)
  {
    0 < s < 32 && |out| == |a| && forall k :: 0 <= k < |a| ==> out[k] == ShlPair(a[k], Under(a, k, below), s)
  }

  lemma ShiftedUpTail(below: Limb, a: seq<Limb>, out: seq<Limb>, s: nat)
    requires ShiftedUp(below, a, out, s) && a != []
    ensures out[0] == ShlPair(a[0], below, s) && ShiftedUp(a[0], a[1..], out[1..], s)
  {
    hide Pow2;
    assert Under(a, 0, below) == below;
    forall k | 0 <= k < |a| - 1 ensures out[1..][k] == ShlPair(a[1..][k], Under(a[1..], k, a[0]), s) {
      assert out[k + 1] == ShlPair(a[k + 1], Under(a, k + 1, below), s);
    }
  }

  /** Limbs shifted up by s bits are worth a * 2^s: `below` is the limb under a. */
  lemma {:induction false} ShlValue(below: Limb, a: seq<Limb>, out: seq<Limb>, s: nat)
    requires ShiftedUp(below, a, out, s)
    ensures Glue(out, Under(a, |a|, below) / Pow2(32 - s)) == Val(a) * Pow2(s) + below / Pow2(32 - s)
    decreases |a|
  {
    hide Pow2, Shift;
    var m, n := Pow2(s), Pow2(32 - s);
    if a != [] {
      ShiftedUpTail(below, a, out, s);
      ShlValue(a[0], a[1..], out[1..], s);
      Complement(s);
      ShiftedLimb(a[0], m, n);
      ShlHead(a[0], Val(a[1..]), out[0], below / n, m, n);
    }
  }

  lemma ShlHead(a0: Limb, va: int, o: int, c: int, m: nat, n: nat)
    requires m >= 1 && n >= 1 && m * n == BASE && o == (a0 % n) * m + c
    ensures o + BASE * (va * m + a0 / n) == (a0 + BASE * va) * m + c
  {
    ShiftedLimb(a0, m, n);
    Distribute(a0, BASE * va, m);
    MulBase(va, m);
  }

  /** Limbs built by ShrAt are worth a / 2^s; what is lost is the low bits of the
      lowest limb. */
  lemma ShrFirst(a: seq<Limb>, s: nat, up: Limb)
    requires 0 < s < 32 && a != [] && up == if |a| > 1 then a[1] else 0
    ensures ShrAt(a, 0, s) == a[0] / Pow2(s) + Mod(up, Pow2(s)) * Pow2(32 - s)
  {
    hide Pow2;
    Complement(s);
    ShiftedLimb(up, Pow2(32 - s), Pow2(s));
  }

  lemma ShrRest(a: seq<Limb>, out: seq<Limb>, s: nat)
    requires 0 < s < 32 && |out| == |a| && a != [] && forall k :: 0 <= k < |a| ==> out[k] == ShrAt(a, k, s)
    ensures forall k :: 0 <= k < |a[1..]| ==> out[1..][k] == ShrAt(a[1..], k, s)
  {
    forall k | 0 <= k < |a| - 1 ensures out[1..][k] == ShrAt(a[1..], k, s) {
      assert out[k + 1] == ShrAt(a, k + 1, s);
    }
  }

  /** A remainder the solver is kept from expanding where it is hidden. */
  ghost function Mod(x: int, m: nat): int
    requires m >= 1
  {
    x % m
  }

  /** The bits of a lost when its limbs are shifted right. */
  ghost function Lost(a: seq<Limb>, m: nat): int
    requires m >= 1
  {
    if a == [] then 0 else Mod(a[0], m)
  }

  lemma {:induction false} ShrProd(a: seq<Limb>, out: seq<Limb>, s: nat)
    requires 0 < s < 32 && |out| == |a|
    requires forall k :: 0 <= k < |a| ==> out[k] == ShrAt(a, k, s)
    ensures Val(a) == Prod(Val(out), Pow2(s)) + Lost(a, Pow2(s))
  {
    if a == [] {
      assert out == [];
    } else {
      hide Pow2, Shift, Val, ShrAt, Prod, Mod;
      ShrRest(a, out, s);
      ShrProd(a[1..], out[1..], s);
      var up: Limb := if |a| > 1 then a[1] else 0;
      LostUp(a, up, Pow2(s));
      ShrFirst(a, s, up);
      Complement(s);
      ValHead(a, 0);
      ValHead(out, 0);
      assert a[0..] == a && out[0..] == out;
      ShrHead(a[0], up, out[0], Val(a[1..]), Val(out[1..]), Pow2(s), Pow2(32 - s));
    }
  }

  lemma LostUp(a: seq<Limb>, up: Limb, m: nat)
    requires m >= 1 && a != [] && up == if |a| > 1 then a[1] else 0
    ensures Lost(a[1..], m) == Mod(up, m)
  {
  }

  lemma ShrValue(a: seq<Limb>, out: seq<Limb>, s: nat)
    requires 0 < s < 32 && |out| == |a|
    requires forall k :: 0 <= k < |a| ==> out[k] == ShrAt(a, k, s)
    ensures Val(a) == Val(out) * Pow2(s) + (if a == [] then 0 else a[0] % Pow2(s))
  {
    hide Val, Pow2, ShrAt;
    ShrProd(a, out, s);
  }

  lemma ShrHead(a0: Limb, up: Limb, o: int, va: int, vo: int, m: nat, n: nat)
    requires m >= 1 && n >= 1 && m * n == BASE && o == a0 / m + Mod(up, m) * n
    requires va == Prod(vo, m) + Mod(up, m)
    ensures a0 + BASE * va == Prod(o + BASE * vo, m) + Mod(a0, m)
  {
    var u := Mod(up, m);
    Distribute(a0 / m, u * n, m);
    Assoc(u, n, m);
    Distribute(o, BASE * vo, m);
    MulBase(vo, m);
    assert a0 == (a0 / m) * m + a0 % m;
  }

  lemma DivUnique(x: int, q: int, r: int, d: int)
    requires d > 0 && x == q * d + r && 0 <= r < d
    ensures x / d == q && x % d == r
  {
    var q', r' := x / d, x % d;
    assert x == q' * d + r';
    Distribute(q, q', d);
    if q < q' { MulMono(1, q' - q, d); } else if q' < q { MulMono(1, q - q', d); }
  }
}
