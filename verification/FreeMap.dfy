/** The free list's bin bitmap (vm/memory/FreeList.c): bytes, one bit per bin. */
module FreeMap {

  const FREE_LIST_SIZE: nat := 128
  const FREE_MAP_SIZE: nat := 17

  /** 1 << k within a byte. */
  function One(k: nat): bv8
    requires k < 8
  {
    if k == 0 then 1 else if k == 1 then 2 else if k == 2 then 4 else if k == 3 then 8
    else if k == 4 then 16 else if k == 5 then 32 else if k == 6 then 64 else 128
  }

  predicate Bit(v: bv8, k: nat)
    requires k < 8
  {
    v & One(k) != 0
  }

  lemma SetBit(v: bv8, k: nat, j: nat)
    requires k < 8 && j < 8
    ensures Bit(v | One(k), j) <==> j == k || Bit(v, j)
  {}

  lemma ClearBit(v: bv8, k: nat, j: nat)
    requires k < 8 && j < 8
    ensures Bit(v & !One(k), j) <==> j != k && Bit(v, j)
  {}

  lemma MaskBits(v: bv8, k: nat, j: nat)
    requires k < 8 && j < 8
    ensures Bit(v & !(One(k) - 1), j) <==> j >= k && Bit(v, j)
  {}

  /** Trailing zeros of a nonzero byte: its lowest bit. */
  function Ctz(v: bv8): (k: nat)
    requires v != 0
    ensures k < 8 && Bit(v, k) && forall j {:trigger Bit(v, j)} :: 0 <= j < k ==> !Bit(v, j)
  {
    if v & 1 != 0 then 0 else if v & 2 != 0 then 1 else if v & 4 != 0 then 2 else if v & 8 != 0 then 3
    else if v & 16 != 0 then 4 else if v & 32 != 0 then 5 else if v & 64 != 0 then 6 else 7
  }

  lemma NoBits(j: nat)
    requires j < 8
    ensures !Bit(0, j)
  {}

  /** The bit of bin i. */
  predicate Has(m: seq<bv8>, i: nat)
    requires |m| == FREE_MAP_SIZE && i <= FREE_LIST_SIZE
  {
    Bit(m[i / 8], i % 8)
  }

  function Set(m: seq<bv8>, i: nat): (r: seq<bv8>)
    requires |m| == FREE_MAP_SIZE && i <= FREE_LIST_SIZE
    ensures |r| == |m|
  {
    m[i / 8 := m[i / 8] | One(i % 8)]
  }

  function Clear(m: seq<bv8>, i: nat): (r: seq<bv8>)
    requires |m| == FREE_MAP_SIZE && i <= FREE_LIST_SIZE
    ensures |r| == |m|
  {
    m[i / 8 := m[i / 8] & !One(i % 8)]
  }

  lemma SetHas(m: seq<bv8>, i: nat, j: nat)
    requires |m| == FREE_MAP_SIZE && i <= FREE_LIST_SIZE && j <= FREE_LIST_SIZE
    ensures Has(Set(m, i), j) <==> j == i || Has(m, j)
  {
    hide Bit, One;
    if i / 8 == j / 8 { SetBit(m[i / 8], i % 8, j % 8); }
  }

  lemma ClearHas(m: seq<bv8>, i: nat, j: nat)
    requires |m| == FREE_MAP_SIZE && i <= FREE_LIST_SIZE && j <= FREE_LIST_SIZE
    ensures Has(Clear(m, i), j) <==> j != i && Has(m, j)
  {
    hide Bit, One;
    if i / 8 == j / 8 { ClearBit(m[i / 8], i % 8, j % 8); }
  }

  /** No bin from lo up to hi has space. */
  ghost predicate NoneIn(m: seq<bv8>, lo: nat, hi: nat)
    requires |m| == FREE_MAP_SIZE
  {
    forall j {:trigger Has(m, j)} :: lo <= j < hi && j < FREE_LIST_SIZE ==> !Has(m, j)
  }

  function Masked(m: seq<bv8>, index: nat): bv8
    requires |m| == FREE_MAP_SIZE && index < FREE_LIST_SIZE
  {
    m[index / 8] & !(One(index % 8) - 1)
  }

  lemma MaskedHas(m: seq<bv8>, index: nat, j: nat)
    requires |m| == FREE_MAP_SIZE && index < FREE_LIST_SIZE && j / 8 == index / 8
    ensures Bit(Masked(m, index), j % 8) <==> j >= index && Has(m, j)
  {
    hide Bit, One;
    MaskBits(m[index / 8], index % 8, j % 8);
  }

  lemma FirstByte(m: seq<bv8>, index: nat)
    requires |m| == FREE_MAP_SIZE && index < FREE_LIST_SIZE
    ensures Masked(m, index) == 0 ==> NoneIn(m, index, index / 8 * 8 + 8)
    ensures Masked(m, index) != 0 ==>
      var r := index / 8 * 8 + Ctz(Masked(m, index));
      index <= r < FREE_LIST_SIZE && Has(m, r) && NoneIn(m, index, r)
  {
    hide Bit, One, Has, Masked;
    var base := index / 8 * 8;
    forall j | base <= j < base + 8
      ensures j / 8 == index / 8 && j % 8 == j - base &&
      (Bit(Masked(m, index), j - base) <==> j >= index && Has(m, j)) {
      MaskedHas(m, index, j);
    }
    if Masked(m, index) == 0 {
      forall j | index <= j < base + 8 && j < FREE_LIST_SIZE ensures !Has(m, j) { NoBits(j - base); }
    } else {
      var r := base + Ctz(Masked(m, index));
      assert r / 8 == index / 8 && r % 8 == r - base;
      MaskedHas(m, index, r);
      forall j | index <= j < r ensures !Has(m, j) { assert !Bit(Masked(m, index), j - base); }
    }
  }

  lemma LaterByte(m: seq<bv8>, element: nat)
    requires |m| == FREE_MAP_SIZE && element < FREE_MAP_SIZE
    ensures m[element] == 0 ==> NoneIn(m, element * 8, element * 8 + 8)
    ensures m[element] != 0 ==>
      NoneIn(m, element * 8, element * 8 + Ctz(m[element])) &&
      (element * 8 + Ctz(m[element]) < FREE_LIST_SIZE ==> Has(m, element * 8 + Ctz(m[element])))
  {
    hide Bit, One;
    forall j | element * 8 <= j < element * 8 + 8 ensures j / 8 == element && j % 8 == j - element * 8 {}
    if m[element] == 0 {
      forall j | element * 8 <= j < element * 8 + 8 && j < FREE_LIST_SIZE
        ensures !Has(m, j) { NoBits(j - element * 8); }
    } else {
      var r := element * 8 + Ctz(m[element]);
      forall j | element * 8 <= j < r && j < FREE_LIST_SIZE
        ensures !Has(m, j) { assert !Bit(m[element], j - element * 8); }
    }
  }

  /** freeMapNext: the first bin at or after index that has space, or -1; the bits past the
      last sized bin do not count. */
  method Next(m: array<bv8>, index: nat) returns (r: int)
    requires m.Length == FREE_MAP_SIZE && index < FREE_LIST_SIZE
    ensures r == -1 || (index <= r < FREE_LIST_SIZE && Has(m[..], r) && NoneIn(m[..], index, r))
    ensures r == -1 ==> NoneIn(m[..], index, FREE_LIST_SIZE)
  {
    hide Bit, One, Has;
    var element := index / 8;
    var v := m[element] & !(One(index % 8) - 1);
    assert v == Masked(m[..], index);
    FirstByte(m[..], index);
    hide Masked;
    if v != 0 { return element * 8 + Ctz(v); }
    element := element + 1;
    while element < FREE_MAP_SIZE
      invariant element <= FREE_MAP_SIZE && index < element * 8
      invariant NoneIn(m[..], index, element * 8)
    {
      hide Bit, One, Has, Masked;
      LaterByte(m[..], element);
      v := m[element];
      if v != 0 {
        var next := element * 8 + Ctz(v);
        return if next >= FREE_LIST_SIZE then -1 else next;
      }
      element := element + 1;
    }
    r := -1;
  }
}
