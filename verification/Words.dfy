/** Words in byte buffers, lowest byte first (vm/core/Endian.h). */
module Words {

  type Byte = b: int | 0 <= b < 256

  function Pow256(n: nat): (p: nat)
    ensures p > 0
  {
    if n == 0 then 1 else 256 * Pow256(n - 1)
  }

  /** The n low bytes of v, lowest first. */
  function Word(v: nat, n: nat): (w: seq<Byte>)
    ensures |w| == n
    decreases n
  {
    if n == 0 then [] else [v % 256] + Word(v / 256, n - 1)
  }

  function Load(w: seq<Byte>): (v: nat)
  {
    if w == [] then 0 else w[0] + 256 * Load(w[1..])
  }

  lemma {:induction false} LoadWord(v: nat, n: nat)
    requires v < Pow256(n)
    ensures Load(Word(v, n)) == v
    decreases n
  {
    if n > 0 {
      LoadWord(v / 256, n - 1);
      assert Word(v, n)[1..] == Word(v / 256, n - 1);
    }
  }

  /** Any bytes are the word of the number they give. */
  lemma {:induction false} WordLoad(w: seq<Byte>)
    ensures Load(w) < Pow256(|w|) && Word(Load(w), |w|) == w
  {
    if w != [] {
      WordLoad(w[1..]);
      var v := Load(w[1..]);
      assert Load(w) == w[0] + 256 * v && Load(w) % 256 == w[0] && Load(w) / 256 == v;
      assert w == [w[0]] + w[1..];
    }
  }

  /** The bytes at p are e. */
  ghost predicate At(bytes: seq<Byte>, p: nat, e: seq<Byte>)
  {
    p + |e| <= |bytes| && bytes[p..p + |e|] == e
  }

  lemma AtSplit(bytes: seq<Byte>, p: nat, a: seq<Byte>, b: seq<Byte>)
    requires At(bytes, p, a + b)
    ensures At(bytes, p, a) && At(bytes, p + |a|, b)
  {
    assert bytes[p..p + |a|] == (a + b)[..|a|];
    assert bytes[p + |a|..p + |a| + |b|] == (a + b)[|a|..];
  }
}
