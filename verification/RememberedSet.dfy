/** The remembered set's chain of blocks and its iterator (vm/memory/RememberedSet.h), and the
    splice of an exiting worker's chain (vm/memory/Heap.c). */
module RememberedSet {

  const REMEMBERED_SET_BLOCK_SIZE := 1024

  /** Newest block first; each block's objects in the order they were added. */
  type Chain = seq<seq<nat>>

  function Entries(blocks: Chain): seq<nat>
  {
    if blocks == [] then [] else blocks[0] + Entries(blocks[1..])
  }

  /** Only the oldest block may be empty, and none is over-full. */
  ghost predicate ChainOk(blocks: Chain)
  {
    && (forall i {:trigger blocks[i]} :: 0 <= i < |blocks| ==> |blocks[i]| <= REMEMBERED_SET_BLOCK_SIZE)
    && (forall i {:trigger blocks[i]} :: 0 <= i < |blocks| - 1 ==> blocks[i] != [])
  }

  /** A worker's own chain has an empty block only as its one block. */
  ghost predicate OwnChain(blocks: Chain)
  {
    blocks != [] && ChainOk(blocks) && (|blocks| > 1 ==> blocks[|blocks| - 1] != [])
  }

  lemma {:induction false} EntriesAppend(a: Chain, b: Chain)
    ensures Entries(a + b) == Entries(a) + Entries(b)
  {
    if a == [] {
      assert a + b == b;
    } else {
      EntriesAppend(a[1..], b);
      assert (a + b)[1..] == a[1..] + b;
      assert Entries(a + b) == a[0] + Entries(a[1..] + b);
      Assoc(a[0], Entries(a[1..]), Entries(b));
    }
  }

  lemma Assoc<T>(a: seq<T>, b: seq<T>, c: seq<T>)
    ensures a + (b + c) == a + b + c
  {}

  lemma FromBlock(blocks: Chain, b: nat)
    requires b < |blocks|
    ensures Entries(blocks[b..]) == blocks[b] + Entries(blocks[b + 1..])
    ensures blocks[b] == [] && b + 1 == |blocks| ==> Entries(blocks[b..]) == []
  {
    assert blocks[b..][1..] == blocks[b + 1..];
  }

  lemma NoneLeft(blocks: Chain)
    ensures Entries(blocks[|blocks|..]) == []
  {}

  class Set {
    var blocks: Chain

    ghost predicate Valid()
      reads this
    {
      blocks != [] && ChainOk(blocks)
    }

    constructor ()
      ensures Valid() && OwnChain(blocks) && Entries(blocks) == []
    {
      blocks := [[]];
    }

    /** Grow before writing when the head is full, so the store is in bounds and the new head
        is never left empty. */
    method Add(n: nat)
      requires Valid()
      modifies this
      ensures Valid() && multiset(Entries(blocks)) == multiset(Entries(old(blocks))) + multiset{n}
      ensures OwnChain(old(blocks)) ==> OwnChain(blocks)
    {
      ghost var before := blocks;
      if |blocks[0]| >= REMEMBERED_SET_BLOCK_SIZE {
        blocks := [[n]] + blocks;
        assert Entries(blocks) == [n] + Entries(before);
      } else {
        blocks := [blocks[0] + [n]] + blocks[1..];
        assert Entries(blocks) == before[0] + [n] + Entries(before[1..]);
      }
    }

    /** Keep the head block, empty, and free the rest. */
    method Reset()
      requires Valid()
      modifies this
      ensures Valid() && OwnChain(blocks) && Entries(blocks) == [] && blocks == [[]]
    {
      blocks := [[]];
    }

    /** heapEndMutator: an exiting worker's chain goes in front of this one, unless it is a lone
        empty block. No entry is lost. */
    method Splice(front: Chain)
      requires Valid() && OwnChain(front)
      modifies this
      ensures Valid() && Entries(blocks) == Entries(front) + Entries(old(blocks))
    {
      var empty := |front| == 1 && front[0] == [];
      if !empty {
        EntriesAppend(front, blocks);
        blocks := front + blocks;
      }
    }
  }

  /** The iterator: the block it is in and the place of the next entry, if there is one. */
  class Iterator {
    const blocks: Chain
    var block: nat
    var next: int

    /** Entries still to come. */
    ghost function Rest(): seq<nat>
      requires Valid()
      reads this
    {
      if next < 0 then [] else blocks[block][next..] + Entries(blocks[block + 1..])
    }

    ghost predicate Valid()
      reads this
    {
      && ChainOk(blocks) && block < |blocks| && next < |blocks[block]|
      && (next < 0 ==> block == |blocks| - 1)
    }

    constructor (set_: Set)
      requires set_.Valid()
      ensures Valid() && Rest() == Entries(set_.blocks)
    {
      var b := set_.blocks;
      blocks := b;
      // An empty head with blocks behind it is stepped over.
      var start := if b[0] == [] && |b| > 1 then 1 else 0;
      block := start;
      next := if b[start] != [] then 0 else -1;
      new;
      assert blocks[1..][0..] == blocks[1..];
    }

    method Next() returns (n: nat)
      requires Valid() && next >= 0
      modifies this
      ensures Valid() && old(Rest()) == [n] + Rest()
    {
      hide Entries;
      ghost var b, i := block, next;
      n := blocks[block][next];
      if next + 1 < |blocks[block]| {
        next := next + 1;
        assert blocks[b][i..] == [n] + blocks[b][i + 1..];
        Assoc([n], blocks[b][i + 1..], Entries(blocks[b + 1..]));
      } else if block + 1 < |blocks| {
        SetBlock(block + 1);
        assert blocks[b][i..] == [n];
        FromBlock(blocks, b + 1);
      } else {
        next := -1;
        NoneLeft(blocks);
        assert blocks[b][i..] == [n];
      }
    }

    method SetBlock(b: nat)
      requires ChainOk(blocks) && b < |blocks|
      modifies this
      ensures Valid() && block == b && next == (if blocks[b] != [] then 0 else -1)
    {
      block := b;
      next := if blocks[b] != [] then 0 else -1;
    }
  }

  /** A walk with the iterator visits every recorded entry, in order, and nothing else. */
  method VisitAll(set_: Set) returns (seen: seq<nat>)
    requires set_.Valid()
    ensures seen == Entries(set_.blocks)
  {
    hide Entries, ChainOk;
    var it := new Iterator(set_);
    ghost var all := Entries(set_.blocks);
    seen := [];
    while it.next >= 0
      invariant it.Valid() && seen + it.Rest() == all && fresh(it)
      decreases |it.Rest()|
    {
      hide Entries, ChainOk;
      ghost var rest := it.Rest();
      var n := it.Next();
      Assoc(seen, [n], it.Rest());
      seen := seen + [n];
    }
  }
}
