/** Old space's free list (vm/memory/FreeList.c): 128 bins of chunks of one size each, an
    oversized bin scanned first-fit, and a bitmap of the bins that have chunks. */
module FreeList {
  import opened FreeMap

  type Addr = nat

  const NULL: Addr := 0
  const HEAP_OBJECT_ALIGN: nat := 16

  /** bins, the bitmap, the headers of free chunks in memory, and, as history, the chunks of
      each bin in list order. */
  datatype View = View(bins: seq<Addr>, freeMap: seq<bv8>, next: map<Addr, Addr>, size: map<Addr, nat>,
    lists: seq<seq<Addr>>)

  function IndexForSize(size: nat): nat
  {
    if size / HEAP_OBJECT_ALIGN > FREE_LIST_SIZE then FREE_LIST_SIZE else size / HEAP_OBJECT_ALIGN
  }

  ghost predicate SizeOk(size: nat)
  {
    size >= HEAP_OBJECT_ALIGN && size % HEAP_OBJECT_ALIGN == 0
  }

  /** A chunk's header: linked to its successor, of its bin's size. */
  ghost predicate NodeOk(v: View, i: nat, k: nat, a: Addr)
    requires i < |v.lists| && k < |v.lists[i]|
  {
    && a != NULL && a in v.next && a in v.size && SizeOk(v.size[a])
    && v.next[a] == (if k + 1 < |v.lists[i]| then v.lists[i][k + 1] else NULL)
    && (i < FREE_LIST_SIZE ==> v.size[a] == HEAP_OBJECT_ALIGN * i)
  }

  ghost predicate ListOk(v: View, i: nat)
    requires i < |v.lists| && i < |v.bins|
  {
    && v.bins[i] == (if v.lists[i] == [] then NULL else v.lists[i][0])
    && forall k {:trigger NodeOk(v, i, k, v.lists[i][k])} :: 0 <= k < |v.lists[i]| ==> NodeOk(v, i, k, v.lists[i][k])
  }

  ghost predicate Lengths(v: View)
  {
    |v.bins| == FREE_LIST_SIZE + 1 && |v.freeMap| == FREE_MAP_SIZE && |v.lists| == FREE_LIST_SIZE + 1
  }

  ghost predicate ListsOk(v: View)
  {
    Lengths(v) && forall i {:trigger v.lists[i]} {:trigger v.bins[i]} :: 0 <= i <= FREE_LIST_SIZE ==> ListOk(v, i)
  }

  /** The bitmap speaks for the sized bins. */
  ghost predicate MapOk(v: View)
  {
    Lengths(v) && forall i {:trigger Has(v.freeMap, i)} ::
      0 <= i < FREE_LIST_SIZE ==> (Has(v.freeMap, i) <==> v.lists[i] != [])
  }

  ghost predicate IsChunk(v: View, a: Addr)
  {
    exists i, k {:trigger v.lists[i][k]} :: 0 <= i < |v.lists| && 0 <= k < |v.lists[i]| && v.lists[i][k] == a
  }

  /** The free chunks, each with its size. */
  ghost function Chunks(v: View): map<Addr, nat>
  {
    map a | a in v.size && IsChunk(v, a) :: v.size[a]
  }

  ghost predicate Apart(v: View, a: Addr, b: Addr)
  {
    a in v.size && b in v.size && (a + v.size[a] <= b || b + v.size[b] <= a)
  }

  /** No two places in the lists hold overlapping chunks. */
  ghost predicate ApartOk(v: View)
  {
    forall i, k, j, l {:trigger v.lists[i][k], v.lists[j][l]} ::
      0 <= i < |v.lists| && 0 <= j < |v.lists| && 0 <= k < |v.lists[i]| && 0 <= l < |v.lists[j]| &&
      (i != j || k != l) ==>
      Apart(v, v.lists[i][k], v.lists[j][l])
  }

  ghost predicate Valid(v: View)
  {
    ListsOk(v) && MapOk(v) && ApartOk(v)
  }

  predicate Within(x: nat, a: Addr, size: nat)
  {
    a <= x < a + size
  }

  /** The byte x is free. */
  ghost predicate Free(v: View, x: nat)
  {
    exists i, k {:trigger v.lists[i][k]} ::
      0 <= i < |v.lists| && 0 <= k < |v.lists[i]| && v.lists[i][k] in v.size &&
      Within(x, v.lists[i][k], v.size[v.lists[i][k]])
  }

  /** Nothing free lies in [a, a + size). */
  ghost predicate Taken(v: View, a: Addr, size: nat)
  {
    forall x {:trigger Within(x, a, size)} :: Within(x, a, size) ==> !Free(v, x)
  }

  // ----- adding a chunk -----

  ghost function Pushed(v: View, i: nat, a: Addr): View
    requires Lengths(v) && i <= FREE_LIST_SIZE
  {
    v.(bins := v.bins[i := a], freeMap := Set(v.freeMap, i), next := v.next[a := v.bins[i]], lists :=
      v.lists[i := [a] + v.lists[i]])
  }

  ghost predicate CanPush(v: View, i: nat, a: Addr)
  {
    a != NULL && a in v.size && SizeOk(v.size[a]) && i == IndexForSize(v.size[a]) && Taken(v, a, v.size[a])
  }

  lemma TakenApart(v: View, a: Addr, i: nat, k: nat)
    requires i < |v.lists| && k < |v.lists[i]| && NodeOk(v, i, k, v.lists[i][k]) && a in v.size && v.size[a] > 0 &&
      Taken(v, a, v.size[a])
    ensures Apart(v, a, v.lists[i][k]) && Apart(v, v.lists[i][k], a) && a != v.lists[i][k]
  {
    var b := v.lists[i][k];
    if !Apart(v, a, b) {
      var x := if a <= b then b else a;
      assert Within(x, a, v.size[a]) && Within(x, b, v.size[b]);
      assert Free(v, x);
    }
  }

  lemma PushedList(v: View, i: nat, a: Addr, j: nat)
    requires ListsOk(v) && i <= FREE_LIST_SIZE && CanPush(v, i, a) && j <= FREE_LIST_SIZE
    ensures ListOk(Pushed(v, i, a), j)
  {
    hide Set, Free;
    var v' := Pushed(v, i, a);
    assert ListOk(v, j);
    assert v.size[a] == HEAP_OBJECT_ALIGN * (v.size[a] / HEAP_OBJECT_ALIGN);
    forall k | 0 <= k < |v'.lists[j]| ensures NodeOk(v', j, k, v'.lists[j][k]) {
      if j != i {
        assert NodeOk(v, j, k, v.lists[j][k]);
        TakenApart(v, a, j, k);
      } else if k > 0 {
        assert NodeOk(v, j, k - 1, v.lists[j][k - 1]);
        TakenApart(v, a, j, k - 1);
      }
    }
  }

  lemma PushedApart(v: View, i: nat, a: Addr)
    requires Valid(v) && i <= FREE_LIST_SIZE && CanPush(v, i, a)
    ensures ApartOk(Pushed(v, i, a))
  {
    hide Set, Free, Taken;
    var v' := Pushed(v, i, a);
    forall j, k, j', k' | 0 <= j < |v'.lists| && 0 <= j' < |v'.lists| && 0 <= k < |v'.lists[j]| &&
      0 <= k' < |v'.lists[j']| && (j != j' || k != k')
      ensures Apart(v', v'.lists[j][k], v'.lists[j'][k'])
    {
      var d := if j == i then 1 else 0;
      var d' := if j' == i then 1 else 0;
      if k >= d { assert NodeOk(v, j, k - d, v.lists[j][k - d]); TakenApart(v, a, j, k - d); }
      if k' >= d' { assert NodeOk(v, j', k' - d', v.lists[j'][k' - d']); TakenApart(v, a, j', k' - d'); }
    }
  }

  lemma PushedFree(v: View, i: nat, a: Addr, x: nat)
    requires Lengths(v) && i <= FREE_LIST_SIZE && a in v.size
    ensures Free(Pushed(v, i, a), x) <==> Free(v, x) || Within(x, a, v.size[a])
  {
    hide Set;
    var v' := Pushed(v, i, a);
    assert v'.lists[i][0] == a;
    forall j, k | 0 <= j < |v.lists| && 0 <= k < |v.lists[j]|
      ensures v'.lists[j][if j == i then k + 1 else k] == v.lists[j][k] {}
    if Free(v, x) {
      var j, k :| 0 <= j < |v.lists| && 0 <= k < |v.lists[j]| && v.lists[j][k] in v.size &&
        Within(x, v.lists[j][k], v.size[v.lists[j][k]]);
      assert v'.lists[j][if j == i then k + 1 else k] == v.lists[j][k];
    }
    if Free(v', x) {
      var j, k :| 0 <= j < |v'.lists| && 0 <= k < |v'.lists[j]| && v'.lists[j][k] in v'.size &&
        Within(x, v'.lists[j][k], v'.size[v'.lists[j][k]]);
      if j != i { assert v.lists[j][k] == v'.lists[j][k]; } else if k > 0
        { assert v.lists[j][k - 1] == v'.lists[j][k]; }
    }
  }

  lemma PushedChunk(v: View, i: nat, a: Addr, b: Addr)
    requires Lengths(v) && i <= FREE_LIST_SIZE
    ensures IsChunk(Pushed(v, i, a), b) <==> IsChunk(v, b) || b == a
  {
    hide Set;
    var v' := Pushed(v, i, a);
    assert v'.lists[i][0] == a;
    if IsChunk(v, b) {
      var j, k :| 0 <= j < |v.lists| && 0 <= k < |v.lists[j]| && v.lists[j][k] == b;
      assert v'.lists[j][if j == i then k + 1 else k] == b;
    }
    if IsChunk(v', b) {
      var j, k :| 0 <= j < |v'.lists| && 0 <= k < |v'.lists[j]| && v'.lists[j][k] == b;
      if j != i { assert v.lists[j][k] == b; } else if k > 0 { assert v.lists[j][k - 1] == b; }
    }
  }

  lemma AddedChunks(v: View, i: nat, a: Addr, bytes: nat)
    requires Lengths(v) && i <= FREE_LIST_SIZE
    ensures Chunks(Pushed(Headed(v, a, bytes), i, a)) == Chunks(v)[a := bytes]
  {
    hide IsChunk, Pushed;
    var w := Headed(v, a, bytes);
    forall b ensures IsChunk(Pushed(w, i, a), b) <==> IsChunk(v, b) || b == a {
      PushedChunk(w, i, a, b);
      assert IsChunk(w, b) <==> IsChunk(v, b) by { HeadedChunk(v, a, bytes, b); }
    }
    assert Pushed(w, i, a).size == w.size by { PushedSize(w, i, a); }
  }

  lemma HeadedChunk(v: View, a: Addr, bytes: nat, b: Addr)
    ensures IsChunk(Headed(v, a, bytes), b) <==> IsChunk(v, b)
  {
  }

  lemma PushedSize(v: View, i: nat, a: Addr)
    requires Lengths(v) && i <= FREE_LIST_SIZE
    ensures Pushed(v, i, a).size == v.size
  {
  }

  lemma PushedValid(v: View, i: nat, a: Addr)
    requires Valid(v) && i <= FREE_LIST_SIZE && CanPush(v, i, a)
    ensures Valid(Pushed(v, i, a))
  {
    hide Set, Has, ListOk, CanPush, ApartOk;
    var v' := Pushed(v, i, a);
    PushedApart(v, i, a);
    forall j | 0 <= j <= FREE_LIST_SIZE ensures ListOk(v', j) { PushedList(v, i, a, j); }
    forall j | 0 <= j < FREE_LIST_SIZE ensures Has(v'.freeMap, j) <==> v'.lists[j] != [] { SetHas(v.freeMap, i, j); }
  }

  // ----- taking a chunk out -----

  function Without(l: seq<Addr>, k: nat): seq<Addr>
    requires k < |l|
  {
    l[..k] + l[k + 1..]
  }

  /** Bin i without its k-th chunk: the head or the predecessor is relinked, and the bin's bit
      cleared when it empties. */
  ghost function Removed(v: View, i: nat, k: nat): View
    requires Lengths(v) && i <= FREE_LIST_SIZE && k < |v.lists[i]| && v.lists[i][k] in v.next
  {
    var l := Without(v.lists[i], k);
    v.(bins := if k == 0 then v.bins[i := v.next[v.lists[i][k]]] else v.bins,
       freeMap := if l == [] then Clear(v.freeMap, i) else v.freeMap,
       next := if k == 0 then v.next else v.next[v.lists[i][k - 1] := v.next[v.lists[i][k]]],
       lists := v.lists[i := l])
  }

  lemma RemovedList(v: View, i: nat, k: nat, j: nat)
    requires ListsOk(v) && ApartOk(v) && i <= FREE_LIST_SIZE && k < |v.lists[i]| && v.lists[i][k] in v.next &&
      j <= FREE_LIST_SIZE
    ensures ListOk(Removed(v, i, k), j)
  {
    hide Clear, Set;
    var v' := Removed(v, i, k);
    var l := v.lists[i];
    assert ListOk(v, i) && ListOk(v, j);
    assert NodeOk(v, i, k, l[k]);
    if k > 0 { assert NodeOk(v, i, k - 1, l[k - 1]); }
    forall m | 0 <= m < |v'.lists[j]| ensures NodeOk(v', j, m, v'.lists[j][m]) {
      var n := if j == i && m >= k then m + 1 else m;
      assert v'.lists[j][m] == v.lists[j][n];
      assert NodeOk(v, j, n, v.lists[j][n]);
      if k > 0 && !(j == i && n == k - 1) { assert Apart(v, v.lists[j][n], l[k - 1]); }
    }
  }

  lemma RemovedApart(v: View, i: nat, k: nat)
    requires Lengths(v) && ApartOk(v) && i <= FREE_LIST_SIZE && k < |v.lists[i]| && v.lists[i][k] in v.next
    ensures ApartOk(Removed(v, i, k))
  {
    hide Clear;
    var v' := Removed(v, i, k);
    forall j, m, j', m' | 0 <= j < |v'.lists| && 0 <= j' < |v'.lists| && 0 <= m < |v'.lists[j]| &&
      0 <= m' < |v'.lists[j']| && (j != j' || m != m')
      ensures Apart(v', v'.lists[j][m], v'.lists[j'][m'])
    {
      var n := if j == i && m >= k then m + 1 else m;
      var n' := if j' == i && m' >= k then m' + 1 else m';
      assert v'.lists[j][m] == v.lists[j][n] && v'.lists[j'][m'] == v.lists[j'][n'];
      assert Apart(v, v.lists[j][n], v.lists[j'][n']);
    }
  }

  lemma StaysFree(v: View, i: nat, k: nat, x: nat)
    requires Lengths(v) && i <= FREE_LIST_SIZE && k < |v.lists[i]| && v.lists[i][k] in v.next && v.lists[i][k] in v.size
    requires Free(v, x) && !Within(x, v.lists[i][k], v.size[v.lists[i][k]])
    ensures Free(Removed(v, i, k), x)
  {
    hide Clear;
    var v' := Removed(v, i, k);
    var j, n :| 0 <= j < |v.lists| && 0 <= n < |v.lists[j]| && v.lists[j][n] in v.size &&
      Within(x, v.lists[j][n], v.size[v.lists[j][n]]);
    var m := if j == i && n > k then n - 1 else n;
    assert v'.lists[j][m] == v.lists[j][n];
  }

  lemma WasFree(v: View, i: nat, k: nat, x: nat)
    requires Lengths(v) && ApartOk(v) && i <= FREE_LIST_SIZE && k < |v.lists[i]| && v.lists[i][k] in v.next &&
      v.lists[i][k] in v.size
    requires Free(Removed(v, i, k), x)
    ensures Free(v, x) && !Within(x, v.lists[i][k], v.size[v.lists[i][k]])
  {
    hide Clear;
    var v' := Removed(v, i, k);
    var j, m :| 0 <= j < |v'.lists| && 0 <= m < |v'.lists[j]| && v'.lists[j][m] in v'.size &&
      Within(x, v'.lists[j][m], v'.size[v'.lists[j][m]]);
    var n := if j == i && m >= k then m + 1 else m;
    assert v'.lists[j][m] == v.lists[j][n];
    assert Apart(v, v.lists[j][n], v.lists[i][k]);
  }

  lemma RemovedFree(v: View, i: nat, k: nat, x: nat)
    requires Lengths(v) && ApartOk(v) && i <= FREE_LIST_SIZE && k < |v.lists[i]| && v.lists[i][k] in v.next &&
      v.lists[i][k] in v.size
    ensures Free(Removed(v, i, k), x) <==> Free(v, x) && !Within(x, v.lists[i][k], v.size[v.lists[i][k]])
  {
    hide Free, Removed, ApartOk;
    if Free(Removed(v, i, k), x) { WasFree(v, i, k, x); }
    if Free(v, x) && !Within(x, v.lists[i][k], v.size[v.lists[i][k]]) { StaysFree(v, i, k, x); }
  }

  lemma RemovedValid(v: View, i: nat, k: nat)
    requires Valid(v) && i <= FREE_LIST_SIZE && k < |v.lists[i]| && v.lists[i][k] in v.next
    ensures Valid(Removed(v, i, k))
  {
    hide Clear, Has, ListOk, ApartOk;
    var v' := Removed(v, i, k);
    RemovedApart(v, i, k);
    forall j | 0 <= j <= FREE_LIST_SIZE ensures ListOk(v', j) { RemovedList(v, i, k, j); }
    forall j | 0 <= j < FREE_LIST_SIZE ensures Has(v'.freeMap, j) <==> v'.lists[j] != [] { ClearHas(v.freeMap, i, j); }
  }

  lemma Chunk(v: View, i: nat, k: nat)
    requires ListsOk(v) && i <= FREE_LIST_SIZE && k < |v.lists[i]|
    ensures NodeOk(v, i, k, v.lists[i][k])
  {
    assert ListOk(v, i);
  }

  lemma BinHead(v: View, i: nat)
    requires ListsOk(v) && i <= FREE_LIST_SIZE
    ensures Lengths(v) && v.bins[i] == if v.lists[i] == [] then NULL else v.lists[i][0]
  {
    assert ListOk(v, i);
  }

  /** Byte by byte, v' is v less the region [a, a + size), all of which v had. */
  ghost predicate TookOut(v: View, v': View, a: Addr, size: nat)
  {
    && (forall x {:trigger Free(v', x)} :: Free(v', x) <==> Free(v, x) && !Within(x, a, size))
    && (forall x {:trigger Within(x, a, size)} :: Within(x, a, size) ==> Free(v, x))
  }

  /** Byte by byte, v' is v and the region [a, a + size), none of which v had. */
  ghost predicate GaveBack(v: View, v': View, a: Addr, size: nat)
  {
    && (forall x {:trigger Free(v', x)} :: Free(v', x) <==> Free(v, x) || Within(x, a, size))
    && Taken(v, a, size)
  }

  ghost predicate TooBig(v: View, size: nat)
  {
    forall i, k {:trigger v.lists[i][k]} ::
      0 <= i < |v.lists| && 0 <= k < |v.lists[i]| ==> v.lists[i][k] in v.size && v.size[v.lists[i][k]] < size
  }

  /** With the exact bin, the bins above and the oversized bin exhausted, nothing fits. */
  lemma NothingFits(v: View, size: nat)
    requires ListsOk(v) && MapOk(v) && SizeOk(size)
    requires IndexForSize(size) < FREE_LIST_SIZE ==> NoneIn(v.freeMap, IndexForSize(size), FREE_LIST_SIZE)
    requires forall k {:trigger v.lists[FREE_LIST_SIZE][k]} ::
      0 <= k < |v.lists[FREE_LIST_SIZE]| ==>
      v.lists[FREE_LIST_SIZE][k] in v.size && v.size[v.lists[FREE_LIST_SIZE][k]] < size
    ensures TooBig(v, size)
  {
    hide Has;
    forall i | IndexForSize(size) <= i < FREE_LIST_SIZE ensures v.lists[i] == [] { assert !Has(v.freeMap, i); }
    forall i, k | 0 <= i < |v.lists| && 0 <= k < |v.lists[i]|
      ensures v.lists[i][k] in v.size && v.size[v.lists[i][k]] < size {
      Chunk(v, i, k);
    }
  }

  ghost predicate NoChunks(v: View)
  {
    && Lengths(v)
    && (forall i {:trigger v.lists[i]} :: 0 <= i <= FREE_LIST_SIZE ==> v.lists[i] == [])
    && (forall i {:trigger v.bins[i]} :: 0 <= i <= FREE_LIST_SIZE ==> v.bins[i] == NULL)
    && (forall i {:trigger v.freeMap[i]} :: 0 <= i < FREE_MAP_SIZE ==> v.freeMap[i] == 0)
  }

  lemma EmptyValid(v: View)
    requires NoChunks(v)
    ensures Valid(v) && forall x {:trigger Free(v, x)} :: !Free(v, x)
  {
    hide Bit;
    forall i | 0 <= i < FREE_LIST_SIZE ensures !Has(v.freeMap, i) { NoBits(i % 8); }
    forall i | 0 <= i <= FREE_LIST_SIZE ensures ListOk(v, i) { assert v.lists[i] == [] && v.bins[i] == NULL; }
    forall i | 0 <= i < FREE_LIST_SIZE ensures v.lists[i] == [] {}
    hide Has, ListOk;
  }

  lemma FirstChunk(v: View, start: Addr, bytes: nat)
    requires Lengths(v) && start != NULL && SizeOk(bytes) && start in v.next && start in v.size &&
      v.next[start] == NULL && v.size[start] == bytes
    requires forall i {:trigger v.lists[i]} {:trigger v.bins[i]} ::
      0 <= i <= FREE_LIST_SIZE ==> if i == FREE_LIST_SIZE then v.lists[i] == [start] && v.bins[i] == start
      else v.lists[i] == [] && v.bins[i] == NULL
    requires forall i {:trigger v.freeMap[i]} :: 0 <= i < FREE_MAP_SIZE ==> v.freeMap[i] == 0
    ensures Valid(v) && forall x {:trigger Free(v, x)} :: Free(v, x) <==> Within(x, start, bytes)
  {
    hide Bit;
    forall i | 0 <= i < FREE_LIST_SIZE ensures !Has(v.freeMap, i) { NoBits(i % 8); }
    assert v.lists[FREE_LIST_SIZE][0] == start;
    assert NodeOk(v, FREE_LIST_SIZE, 0, start);
    forall i | 0 <= i <= FREE_LIST_SIZE ensures ListOk(v, i) { assert i < FREE_LIST_SIZE ==> v.lists[i] == []; }
    forall i | 0 <= i < FREE_LIST_SIZE ensures v.lists[i] == [] {}
    hide Has, ListOk, NodeOk;
    forall x ensures Free(v, x) <==> Within(x, start, bytes) {}
  }

  ghost function Headed(v: View, a: Addr, bytes: nat): View
  {
    v.(next := v.next[a := NULL], size := v.size[a := bytes])
  }

  lemma NotListed(v: View, a: Addr, bytes: nat, i: nat, k: nat)
    requires ListsOk(v) && bytes > 0 && Taken(v, a, bytes) && i <= FREE_LIST_SIZE && k < |v.lists[i]|
    ensures v.lists[i][k] != a && NodeOk(v, i, k, v.lists[i][k]) && NodeOk(Headed(v, a, bytes), i, k, v.lists[i][k])
  {
    Chunk(v, i, k);
    var b := v.lists[i][k];
    assert Within(b, b, v.size[b]);
    assert Free(v, b);
    if b == a { assert Within(b, a, bytes); }
  }

  /** Writing the header of a region that is not free changes nothing about the free list. */
  lemma HeaderWritten(v: View, a: Addr, bytes: nat)
    requires Valid(v) && a != NULL && SizeOk(bytes) && Taken(v, a, bytes)
    ensures Valid(Headed(v, a, bytes)) && CanPush(Headed(v, a, bytes), IndexForSize(bytes), a)
    ensures forall x {:trigger Free(Headed(v, a, bytes), x)} :: Free(Headed(v, a, bytes), x) <==> Free(v, x)
  {
    hide NodeOk, Has;
    var w := Headed(v, a, bytes);
    forall i, k | 0 <= i <= FREE_LIST_SIZE && 0 <= k < |v.lists[i]|
      ensures v.lists[i][k] != a && NodeOk(w, i, k, v.lists[i][k]) { NotListed(v, a, bytes, i, k); }
    forall i | 0 <= i <= FREE_LIST_SIZE ensures ListOk(w, i) { BinHead(v, i); }
    forall i, k, j, l | 0 <= i < |v.lists| && 0 <= j < |v.lists| && 0 <= k < |v.lists[i]| && 0 <= l < |v.lists[j]| &&
      (i != j || k != l)
      ensures Apart(w, v.lists[i][k], v.lists[j][l])
    {
      assert Apart(v, v.lists[i][k], v.lists[j][l]);
    }
    hide ListOk, Apart;
    forall x ensures Free(w, x) <==> Free(v, x) {}
  }

  lemma NextNull(v: View, i: nat, k: nat)
    requires ListsOk(v) && i <= FREE_LIST_SIZE && k < |v.lists[i]|
    ensures v.lists[i][k] in v.next && (Without(v.lists[i], k) == [] <==> k == 0 && v.next[v.lists[i][k]] == NULL)
    ensures v.bins[i] != NULL && (k == 0 ==> v.bins[i] == v.lists[i][k])
  {
    BinHead(v, i);
    Chunk(v, i, 0);
    Chunk(v, i, k);
    if k + 1 < |v.lists[i]| { Chunk(v, i, k + 1); }
  }

  lemma TookOutChunk(v: View, i: nat, k: nat)
    requires Valid(v) && i <= FREE_LIST_SIZE && k < |v.lists[i]| && v.lists[i][k] in v.next && v.lists[i][k] in v.size
    ensures TookOut(v, Removed(v, i, k), v.lists[i][k], v.size[v.lists[i][k]])
  {
    hide Removed;
    var a := v.lists[i][k];
    forall x | Within(x, a, v.size[a]) ensures Free(v, x) { var _ := v.lists[i][k]; }
    hide Free, ListsOk, ApartOk, MapOk;
    forall x ensures Free(Removed(v, i, k), x) <==> Free(v, x) && !Within(x, a, v.size[a]) { RemovedFree(v, i, k, x); }
  }

  lemma SplitOut(v: View, v': View, v'': View, a: Addr, whole: nat, bytes: nat)
    requires bytes <= whole && TookOut(v, v', a, whole) && GaveBack(v', v'', a + bytes, whole - bytes)
    ensures TookOut(v, v'', a, bytes)
  {
    hide Free;
    forall x ensures Free(v'', x) <==> Free(v, x) && !Within(x, a, bytes) {
      assert Free(v', x) <==> Free(v, x) && !Within(x, a, whole);
      if Within(x, a, whole) { assert Free(v, x); }
    }
    forall x | Within(x, a, bytes) ensures Free(v, x) { assert Within(x, a, whole); }
  }

  lemma Fits(v: View, i: nat, k: nat, bytes: nat)
    requires i < |v.lists| && k < |v.lists[i]| && v.lists[i][k] in v.size && v.size[v.lists[i][k]] >= bytes
    ensures !TooBig(v, bytes)
  {
  }

  // ----- which chunk -----

  /** Place k of bin i: the first chunk that fits in the first bin with chunks, from the exact one on. */
  ghost predicate Chosen(v: View, bytes: nat, i: nat, k: nat)
  {
    && IndexForSize(bytes) <= i < |v.lists| && k < |v.lists[i]|
    && v.lists[i][k] in v.size && bytes <= v.size[v.lists[i][k]]
    && (forall j {:trigger v.lists[j]} :: IndexForSize(bytes) <= j < i ==> v.lists[j] == [])
    && (forall m {:trigger v.lists[i][m]} :: 0 <= m < k ==> v.lists[i][m] in v.size && v.size[v.lists[i][m]] < bytes)
  }

  /** The lists with a chunk more, at the head of its bin; with none more for no bytes. */
  ghost function WithChunk(lists: seq<seq<Addr>>, a: Addr, bytes: nat): seq<seq<Addr>>
    requires |lists| == FREE_LIST_SIZE + 1
  {
    var i := IndexForSize(bytes);
    if bytes == 0 then lists else lists[i := [a] + lists[i]]
  }

  ghost predicate ServedFrom(v: View, lists: seq<seq<Addr>>, r: Addr, bytes: nat, i: nat, k: nat)
  {
    && Lengths(v) && Chosen(v, bytes, i, k) && r == v.lists[i][k]
    && lists == WithChunk(v.lists[i := Without(v.lists[i], k)], r + bytes, v.size[r] - bytes)
  }

  /** The bytes are the first ones of the chosen chunk, and the rest of it heads its bin. */
  ghost predicate Served(v: View, lists: seq<seq<Addr>>, r: Addr, bytes: nat)
  {
    exists i, k {:trigger Chosen(v, bytes, i, k)} :: ServedFrom(v, lists, r, bytes, i, k)
  }

  lemma NoChunkMore(lists: seq<seq<Addr>>, a: Addr)
    requires |lists| == FREE_LIST_SIZE + 1
    ensures WithChunk(lists, a, 0) == lists
  {
  }

  lemma EmptyBefore(v: View, bytes: nat, i: nat)
    requires MapOk(v) && i <= FREE_LIST_SIZE && (IndexForSize(bytes) < i ==> NoneIn(v.freeMap, IndexForSize(bytes), i))
    ensures forall j {:trigger v.lists[j]} :: IndexForSize(bytes) <= j < i ==> v.lists[j] == []
  {
    hide Has;
    forall j | IndexForSize(bytes) <= j < i ensures v.lists[j] == [] { assert !Has(v.freeMap, j); }
  }

  lemma FirstChosen(v: View, bytes: nat, i: nat)
    requires Valid(v) && SizeOk(bytes) && IndexForSize(bytes) <= i < FREE_LIST_SIZE && Has(v.freeMap, i)
    requires IndexForSize(bytes) < i ==> NoneIn(v.freeMap, IndexForSize(bytes), i)
    ensures Chosen(v, bytes, i, 0) && !TooBig(v, bytes)
  {
    hide Has;
    Chunk(v, i, 0);
    EmptyBefore(v, bytes, i);
    Fits(v, i, 0, bytes);
  }

  lemma ChosenHead(v: View, bytes: nat, i: nat)
    requires Valid(v) && Chosen(v, bytes, i, 0)
    ensures Lengths(v) && v.lists[i] != [] && v.lists[i][0] in v.size && bytes <= v.size[v.lists[i][0]]
  {
  }

  lemma ServedBy(v: View, lists: seq<seq<Addr>>, r: Addr, bytes: nat, i: nat, k: nat)
    requires ServedFrom(v, lists, r, bytes, i, k)
    ensures Served(v, lists, r, bytes)
  {
    assert Chosen(v, bytes, i, k);
  }

  /** The sized bins serve best-fit: no chunk of theirs that is large enough is smaller. */
  lemma BestFit(v: View, bytes: nat, i: nat, k: nat, j: nat, m: nat)
    requires Valid(v) && SizeOk(bytes) && Chosen(v, bytes, i, k) && j < FREE_LIST_SIZE && m < |v.lists[j]|
    requires v.lists[j][m] in v.size && v.size[v.lists[j][m]] >= bytes
    ensures i < FREE_LIST_SIZE && v.size[v.lists[i][k]] <= v.size[v.lists[j][m]]
  {
    Chunk(v, j, m);
    Chunk(v, i, k);
  }

  // ----- the allocator -----

  class Allocator {
    const bins: array<Addr>
    const freeMap: array<bv8>
    var next: map<Addr, Addr>
    var size: map<Addr, nat>
    ghost var lists: seq<seq<Addr>>

    ghost function Now(): View
      reads this, bins, freeMap
    {
      View(bins[..], freeMap[..], next, size, lists)
    }

    /** An allocator with no chunks. */
    constructor ()
      ensures Valid(Now()) && fresh(bins) && fresh(freeMap) && forall x {:trigger Free(Now(), x)} :: !Free(Now(), x)
    {
      bins := new Addr[FREE_LIST_SIZE + 1](_ => NULL);
      freeMap := new bv8[FREE_MAP_SIZE](_ => 0);
      next, size := map[], map[];
      lists := seq(FREE_LIST_SIZE + 1, _ => []);
      new;
      EmptyValid(Now());
    }

    /** initFreeList: the whole page as one chunk, in the oversized bin whatever its size. */
    constructor OfPage(start: Addr, bytes: nat)
      requires start != NULL && SizeOk(bytes)
      ensures Valid(Now()) && fresh(bins) && fresh(freeMap) && forall x {:trigger Free(Now(), x)} ::
        Free(Now(), x) <==> Within(x, start, bytes)
    {
      bins := new Addr[FREE_LIST_SIZE + 1](i => if i == FREE_LIST_SIZE then start else NULL);
      freeMap := new bv8[FREE_MAP_SIZE](_ => 0);
      next, size := map[start := NULL], map[start := bytes];
      lists := seq(FREE_LIST_SIZE + 1, i => if i == FREE_LIST_SIZE then [start] else []);
      new;
      FirstChunk(Now(), start, bytes);
    }

    /** The memset at the head of gcSweep. */
    method Reset()
      modifies this, bins, freeMap
      requires Lengths(Now())
      ensures Valid(Now()) && Chunks(Now()) == map[] && forall x {:trigger Free(Now(), x)} :: !Free(Now(), x)
    {
      forall i | 0 <= i < bins.Length { bins[i] := NULL; }
      forall i | 0 <= i < freeMap.Length { freeMap[i] := 0; }
      lists := seq(FREE_LIST_SIZE + 1, _ => []);
      EmptyValid(Now());
    }

    /** createFreeSpace and freeListAddFreeSpace. */
    method AddFreeSpace(a: Addr, bytes: nat)
      modifies this, bins, freeMap
      requires Valid(Now()) && a != NULL && SizeOk(bytes) && Taken(Now(), a, bytes)
      ensures Valid(Now()) && GaveBack(old(Now()), Now(), a, bytes) && Chunks(Now()) == Chunks(old(Now()))[a := bytes]
      ensures lists == WithChunk(old(lists), a, bytes)
    {
      hide Has, One, Chunks;
      ghost var v := Now();
      next, size := next[a := NULL], size[a := bytes];
      ghost var w := Now();
      HeaderWritten(v, a, bytes);
      var index := IndexForSize(bytes);
      next := next[a := bins[index]];
      bins[index] := a;
      freeMap[index / 8] := freeMap[index / 8] | One(index % 8);
      lists := lists[index := [a] + lists[index]];
      assert Now() == Pushed(w, index, a);
      hide Valid, Pushed, CanPush, Lengths;
      PushedValid(w, index, a);
      AddedChunks(v, index, a, bytes);
      forall x ensures Free(Now(), x) <==> Free(v, x) || Within(x, a, bytes) { PushedFree(w, index, a, x); }
    }

    /** popFreeSpace. */
    method Pop(index: nat) returns (a: Addr)
      modifies this, bins, freeMap
      requires Valid(Now()) && index < FREE_LIST_SIZE && lists[index] != []
      ensures Valid(Now()) && a != NULL && size == old(size) && a in size && size[a] == HEAP_OBJECT_ALIGN * index &&
        SizeOk(size[a])
      ensures TookOut(old(Now()), Now(), a, size[a])
      ensures a == old(lists[index][0]) && lists == old(lists)[index := Without(old(lists[index]), 0)]
    {
      hide Has, One, Free;
      ghost var v := Now();
      BinHead(v, index);
      Chunk(v, index, 0);
      a := bins[index];
      var rest := next[a];
      if rest == NULL {
        freeMap[index / 8] := freeMap[index / 8] & !One(index % 8);
      }
      bins[index] := rest;
      lists := lists[index := Without(lists[index], 0)];
      NextNull(v, index, 0);
      assert Now() == Removed(v, index, 0);
      hide NodeOk, Removed, Lengths;
      RemovedValid(v, index, 0);
      TookOutChunk(v, index, 0);
    }

    /** The unlinking of the chunk the oversized scan found. */
    method Unlink(prev: Addr, freeSpace: Addr, ghost k: nat)
      modifies this, bins, freeMap
      requires Valid(Now()) && k < |lists[FREE_LIST_SIZE]| && freeSpace == lists[FREE_LIST_SIZE][k] && prev == if k == 0
        then NULL else lists[FREE_LIST_SIZE][k - 1]
      ensures Valid(Now()) && size == old(size) && freeSpace in size && freeSpace != NULL && SizeOk(size[freeSpace])
      ensures TookOut(old(Now()), Now(), freeSpace, size[freeSpace])
      ensures lists == old(lists)[FREE_LIST_SIZE := Without(old(lists[FREE_LIST_SIZE]), k)]
    {
      hide Has, One, Free;
      ghost var v := Now();
      BinHead(v, FREE_LIST_SIZE);
      Chunk(v, FREE_LIST_SIZE, k);
      if k > 0 { Chunk(v, FREE_LIST_SIZE, k - 1); }
      if prev == NULL {
        bins[FREE_LIST_SIZE] := next[freeSpace];
      } else {
        next := next[prev := next[freeSpace]];
      }
      if bins[FREE_LIST_SIZE] == NULL {
        freeMap[FREE_LIST_SIZE / 8] := freeMap[FREE_LIST_SIZE / 8] & !One(FREE_LIST_SIZE % 8);
      }
      lists := lists[FREE_LIST_SIZE := Without(lists[FREE_LIST_SIZE], k)];
      NextNull(v, FREE_LIST_SIZE, k);
      assert Now() == Removed(v, FREE_LIST_SIZE, k);
      hide NodeOk, Removed, Lengths;
      RemovedValid(v, FREE_LIST_SIZE, k);
      TookOutChunk(v, FREE_LIST_SIZE, k);
    }

    /** splitFreeSpace: the chunk keeps its first bytes, the rest is a chunk of its own. */
    method Split(a: Addr, bytes: nat, ghost before: View)
      modifies this, bins, freeMap
      requires Valid(Now()) && a != NULL && a in size && SizeOk(size[a]) && SizeOk(bytes) && bytes <= size[a] &&
        TookOut(before, Now(), a, size[a])
      ensures Valid(Now()) && TookOut(before, Now(), a, bytes)
      ensures |old(lists)| == FREE_LIST_SIZE + 1 && lists == WithChunk(old(lists), a + bytes, old(size[a]) - bytes)
    {
      assert |lists| == FREE_LIST_SIZE + 1;
      hide Free, Valid, WithChunk;
      ghost var v := Now();
      ghost var whole := size[a];
      var newSize := size[a] - bytes;
      if newSize == 0 { NoChunkMore(lists, a + bytes); return; }
      assert Taken(v, a + bytes, newSize) by {
        forall x | Within(x, a + bytes, newSize) ensures !Free(v, x) { assert Within(x, a, whole); }
      }
      AddFreeSpace(a + bytes, newSize);
      SplitOut(before, v, Now(), a, whole, bytes);
    }

    /** The scan of the oversized bin. */
    method Fallback(bytes: nat) returns (r: Addr)
      modifies this, bins, freeMap
      requires Valid(Now()) && SizeOk(bytes)
      requires IndexForSize(bytes) < FREE_LIST_SIZE ==> NoneIn(freeMap[..], IndexForSize(bytes), FREE_LIST_SIZE)
      ensures Valid(Now())
      ensures r == NULL <==> TooBig(old(Now()), bytes)
      ensures r == NULL ==> Now() == old(Now())
      ensures r != NULL ==> TookOut(old(Now()), Now(), r, bytes) && Served(old(Now()), lists, r, bytes)
    {
      hide Has, One, Free, Bit, TooBig, ListsOk, MapOk, ApartOk, NoneIn;
      ghost var v := Now();
      var prev := NULL;
      ghost var k: nat := 0;
      BinHead(v, FREE_LIST_SIZE);
      var freeSpace := bins[FREE_LIST_SIZE];
      while freeSpace != NULL
        invariant Now() == v && Valid(v) && k <= |v.lists[FREE_LIST_SIZE]|
        invariant freeSpace == if k < |v.lists[FREE_LIST_SIZE]| then v.lists[FREE_LIST_SIZE][k] else NULL
        invariant prev == if k == 0 then NULL else v.lists[FREE_LIST_SIZE][k - 1]
        invariant forall m {:trigger v.lists[FREE_LIST_SIZE][m]} ::
          0 <= m < k ==> v.lists[FREE_LIST_SIZE][m] in v.size && v.size[v.lists[FREE_LIST_SIZE][m]] < bytes
        decreases |v.lists[FREE_LIST_SIZE]| - k
      {
        hide Has, One, Free, Bit, TooBig, ListsOk, MapOk, ApartOk, NoneIn, TookOut;
        Chunk(v, FREE_LIST_SIZE, k);
        if size[freeSpace] >= bytes {
          Fits(v, FREE_LIST_SIZE, k, bytes);
          EmptyBefore(v, bytes, FREE_LIST_SIZE);
          Unlink(prev, freeSpace, k);
          Split(freeSpace, bytes, v);
          r := freeSpace;
          ServedBy(v, lists, r, bytes, FREE_LIST_SIZE, k);
          return;
        }
        prev := freeSpace;
        freeSpace := next[freeSpace];
        k := k + 1;
      }
      if k < |v.lists[FREE_LIST_SIZE]| { Chunk(v, FREE_LIST_SIZE, k); }
      NothingFits(v, bytes);
      r := NULL;
    }

    /** popAndSplitFreeSpace, on the bin chosen. */
    method PopAndSplit(index: nat, bytes: nat) returns (r: Addr)
      modifies this, bins, freeMap
      requires Valid(Now()) && SizeOk(bytes) && index < FREE_LIST_SIZE && Chosen(Now(), bytes, index, 0)
      ensures Valid(Now()) && r != NULL && TookOut(old(Now()), Now(), r, bytes) && Served(old(Now()), lists, r, bytes)
    {
      hide Free, Valid, TookOut, Served, WithChunk, Chosen, Without;
      ghost var v := Now();
      ChosenHead(v, bytes, index);
      r := Pop(index);
      Split(r, bytes, v);
      ServedBy(v, lists, r, bytes, index, 0);
    }

    /** popFreeSpace on the exact bin. */
    method PopExact(index: nat, bytes: nat) returns (r: Addr)
      modifies this, bins, freeMap
      requires Valid(Now()) && SizeOk(bytes) && index < FREE_LIST_SIZE && Chosen(Now(), bytes, index, 0)
      requires index == IndexForSize(bytes)
      ensures Valid(Now()) && r != NULL && TookOut(old(Now()), Now(), r, bytes) && Served(old(Now()), lists, r, bytes)
    {
      hide Free, Valid, TookOut, Served, WithChunk, Chosen, Without;
      ghost var v := Now();
      ChosenHead(v, bytes, index);
      r := Pop(index);
      NoChunkMore(lists, r + bytes);
      ServedBy(v, lists, r, bytes, index, 0);
    }

    /** freeListTryAllocate: NULL exactly when no chunk is large enough; otherwise a region of
        the size asked for, all of it free before and nothing else gone from the free list. */
    method TryAllocate(bytes: nat) returns (r: Addr)
      modifies this, bins, freeMap
      requires Valid(Now()) && SizeOk(bytes)
      ensures Valid(Now())
      ensures r == NULL <==> TooBig(old(Now()), bytes)
      ensures r == NULL ==> Now() == old(Now())
      ensures r != NULL ==> TookOut(old(Now()), Now(), r, bytes) && Served(old(Now()), lists, r, bytes)
    {
      hide One, Free, TooBig, ListsOk, ApartOk, TookOut, Served, Chosen;
      ghost var v := Now();
      var index := IndexForSize(bytes);
      if index != FREE_LIST_SIZE && freeMap[index / 8] & One(index % 8) != 0 {
        assert Has(v.freeMap, index);
        FirstChosen(v, bytes, index);
        r := PopExact(index, bytes);
        return;
      }
      assert index < FREE_LIST_SIZE ==> !Has(v.freeMap, index);
      if index + 1 < FREE_LIST_SIZE {
        var nextIndex := Next(freeMap, index + 1);
        if nextIndex != -1 {
          FirstChosen(v, bytes, nextIndex);
          r := PopAndSplit(nextIndex, bytes);
          return;
        }
      }
      hide Has;
      assert index < FREE_LIST_SIZE ==> NoneIn(v.freeMap, index, FREE_LIST_SIZE);
      r := Fallback(bytes);
    }
  }

  // ----- any sequence of allocations and frees -----

  datatype Region = Region(a: Addr, bytes: nat)

  datatype Op = Alloc(bytes: nat) | Release(k: nat)

  ghost predicate In(x: nat, g: Region)
  {
    Within(x, g.a, g.bytes)
  }

  /** Every byte of the page is free or in exactly one held region. */
  ghost predicate Conserved(v: View, held: seq<Region>, page: Region)
  {
    && (forall x {:trigger Free(v, x)} {:trigger In(x, page)} ::
      In(x, page) <==> Free(v, x) || exists k {:trigger held[k]} :: 0 <= k < |held| && In(x, held[k]))
    && (forall k, x {:trigger In(x, held[k])} :: 0 <= k < |held| && In(x, held[k]) ==> !Free(v, x))
    && (forall k, m, x {:trigger In(x, held[k]), In(x, held[m])} ::
      0 <= k < |held| && 0 <= m < |held| && k != m && In(x, held[k]) ==> !In(x, held[m]))
    && (forall k {:trigger held[k]} :: 0 <= k < |held| ==> held[k].a != NULL && SizeOk(held[k].bytes))
  }

  lemma Granted(v: View, v': View, held: seq<Region>, page: Region, g: Region)
    requires Conserved(v, held, page) && TookOut(v, v', g.a, g.bytes) && g.a != NULL && SizeOk(g.bytes)
    ensures Conserved(v', held + [g], page)
  {
    hide Free, SizeOk;
    var after := held + [g];
    forall x ensures In(x, page) <==> Free(v', x) || exists k {:trigger after[k]} ::
      0 <= k < |after| && In(x, after[k]) {
      if In(x, g) { assert Within(x, g.a, g.bytes) && Free(v, x) && after[|held|] == g; }
      if k :| 0 <= k < |held| && In(x, held[k]) { assert after[k] == held[k]; }
    }
    forall k, x | 0 <= k < |after| && In(x, after[k]) ensures !Free(v', x) {
      if k < |held| { assert In(x, held[k]); } else { assert Within(x, g.a, g.bytes); }
    }
    forall k, m, x | 0 <= k < |after| && 0 <= m < |after| && k != m && In(x, after[k]) ensures !In(x, after[m]) {
      if k < |held| { assert In(x, held[k]); } else { assert Within(x, g.a, g.bytes) && Free(v, x); }
      assert m < |held| ==> (In(x, after[m]) <==> In(x, held[m]));
      assert In(x, g) ==> Within(x, g.a, g.bytes) && Free(v, x);
    }
  }

  lemma Released(v: View, v': View, held: seq<Region>, page: Region, r: nat)
    requires Conserved(v, held, page) && r < |held| && GaveBack(v, v', held[r].a, held[r].bytes)
    ensures Conserved(v', held[..r] + held[r + 1..], page)
  {
    hide Free, SizeOk;
    var after := held[..r] + held[r + 1..];
    forall x ensures In(x, page) <==> Free(v', x) || exists k {:trigger after[k]} ::
      0 <= k < |after| && In(x, after[k]) {
      if k :| 0 <= k < |held| && In(x, held[k]) {
        if k != r { assert after[if k < r then k else k - 1] == held[k]; }
      }
      if k :| 0 <= k < |after| && In(x, after[k]) { assert held[if k < r then k else k + 1] == after[k]; }
      assert Free(v', x) <==> Free(v, x) || In(x, held[r]);
    }
    forall k, x | 0 <= k < |after| && In(x, after[k]) ensures !Free(v', x) {
      assert In(x, held[if k < r then k else k + 1]) && !In(x, held[r]);
    }
    forall k, m, x | 0 <= k < |after| && 0 <= m < |after| && k != m && In(x, after[k]) ensures !In(x, after[m]) {
      assert In(x, held[if k < r then k else k + 1]);
      assert !In(x, held[if m < r then m else m + 1]);
    }
  }

  /** The free list and the regions handed out, at one time. */
  datatype Moment = Moment(v: View, held: seq<Region>)

  /** A request is granted exactly if a chunk is large enough, from the chosen one; what is
      released heads its bin. */
  ghost predicate OpDone(m: Moment, op: Op, n: Moment)
  {
    match op
    case Alloc(bytes) =>
      if TooBig(m.v, bytes) then n == m
      else |n.held| == |m.held| + 1 && GrantedTo(m, n, n.held[|m.held|]) && n.held[|m.held|].bytes == bytes
    case Release(k) =>
      if k < |m.held| then
        && n.held == m.held[..k] + m.held[k + 1..] && GaveBack(m.v, n.v, m.held[k].a, m.held[k].bytes)
        && Lengths(m.v) && n.v.lists == WithChunk(m.v.lists, m.held[k].a, m.held[k].bytes)
      else n == m
  }

  ghost predicate GrantedTo(m: Moment, n: Moment, g: Region)
  {
    n.held == m.held + [g] && TookOut(m.v, n.v, g.a, g.bytes) && Served(m.v, n.v.lists, g.a, g.bytes)
  }

  /** Each moment of past follows from the one before by the next operation, and free and held
      bytes make up the page throughout. */
  ghost predicate History(past: seq<Moment>, ops: seq<Op>, page: Region)
  {
    && |past| == |ops| + 1 && past[0].held == []
    && (forall i {:trigger past[i]} :: 0 <= i < |past| ==> Valid(past[i].v) && Conserved(past[i].v, past[i].held, page))
    && (forall i {:trigger ops[i]} :: 0 <= i < |ops| ==> OpDone(past[i], ops[i], past[i + 1]))
  }

  lemma HistoryOn(past: seq<Moment>, ops: seq<Op>, page: Region, op: Op, m: Moment)
    requires History(past, ops, page) && OpDone(past[|ops|], op, m) && Valid(m.v) && Conserved(m.v, m.held, page)
    ensures History(past + [m], ops + [op], page)
  {
    hide Valid, Conserved, OpDone;
    var past', ops' := past + [m], ops + [op];
    forall i | 0 <= i < |ops'| ensures OpDone(past'[i], ops'[i], past'[i + 1]) {
      if i < |ops| { assert ops'[i] == ops[i]; }
    }
  }

  /** A page handed out and taken back in any order: chunks stay apart, free and held bytes
      always make up the page, and every request is served as long as one can be. */
  method Serve(page: Region, ops: seq<Op>) returns (list: Allocator, held: seq<Region>, ghost past: seq<Moment>)
    requires page.a != NULL && SizeOk(page.bytes)
    requires forall i {:trigger ops[i]} :: 0 <= i < |ops| && ops[i].Alloc? ==> SizeOk(ops[i].bytes)
    ensures History(past, ops, page) && past[|ops|] == Moment(list.Now(), held)
  {
    list := new Allocator.OfPage(page.a, page.bytes);
    held, past := [], [Moment(list.Now(), [])];
    hide Free, Valid, Conserved, History, TookOut, GaveBack, TooBig, Served, WithChunk;
    assert History(past, ops[..0], page) by { HistoryStarts(list.Now(), page); }
    for i := 0 to |ops|
      invariant fresh(list) && fresh(list.bins) && fresh(list.freeMap)
      invariant History(past, ops[..i], page) && |past| == i + 1 && past[i] == Moment(list.Now(), held)
    {
      hide Free, Valid, Conserved, History, TookOut, GaveBack, TooBig, Served, WithChunk;
      ghost var m := past[i];
      HistoryNow(past, ops[..i], page);
      match ops[i] {
        case Alloc(bytes) =>
          var r := list.TryAllocate(bytes);
          if r != NULL {
            Granted(m.v, list.Now(), held, page, Region(r, bytes));
            held := held + [Region(r, bytes)];
          }
        case Release(k) =>
          if k < |held| {
            HeldTaken(m.v, held, page, k);
            list.AddFreeSpace(held[k].a, held[k].bytes);
            Released(m.v, list.Now(), held, page, k);
            held := held[..k] + held[k + 1..];
          }
      }
      HistoryOn(past, ops[..i], page, ops[i], Moment(list.Now(), held));
      assert ops[..i + 1] == ops[..i] + [ops[i]];
      past := past + [Moment(list.Now(), held)];
    }
    assert ops[..|ops|] == ops;
  }

  lemma HistoryNow(past: seq<Moment>, ops: seq<Op>, page: Region)
    requires History(past, ops, page)
    ensures |past| == |ops| + 1 && Valid(past[|ops|].v) && Lengths(past[|ops|].v)
    ensures Conserved(past[|ops|].v, past[|ops|].held, page)
  {
    hide Conserved, OpDone;
    var _ := past[|ops|];
  }

  lemma HistoryStarts(v: View, page: Region)
    requires Valid(v) && page.a != NULL && SizeOk(page.bytes) &&
      forall x {:trigger Free(v, x)} :: Free(v, x) <==> Within(x, page.a, page.bytes)
    ensures History([Moment(v, [])], [], page)
  {
    hide Free, Valid;
  }

  lemma HeldTaken(v: View, held: seq<Region>, page: Region, k: nat)
    requires Conserved(v, held, page) && k < |held|
    ensures held[k].a != NULL && SizeOk(held[k].bytes) && Taken(v, held[k].a, held[k].bytes)
  {
    hide Free, SizeOk;
    forall x | Within(x, held[k].a, held[k].bytes) ensures !Free(v, x) { assert In(x, held[k]); }
  }
}
