/** The writer's object-to-number map: open addressing with linear probing, doubled at three
    quarters full (vm/runtime/Message.c). Keys are object addresses in allocation units. */
module IdMap {

  const EMPTY := -1

  function Slot(key: nat, j: nat, cap: nat): (h: nat)
    requires cap > 0
    ensures h < cap
  {
    (key + j) % cap
  }

  ghost function Filled(keys: seq<int>): (n: nat)
    ensures n <= |keys|
  {
    if keys == [] then 0 else Filled(keys[..|keys| - 1]) + if keys[|keys| - 1] >= 0 then 1 else 0
  }

  lemma {:induction false} FilledSet(keys: seq<int>, h: nat, key: nat)
    requires h < |keys| && keys[h] < 0
    ensures Filled(keys[h := key]) == Filled(keys) + 1
  {
    var n := |keys| - 1;
    if h == n {
      assert keys[h := key][..n] == keys[..n];
    } else {
      FilledSet(keys[..n], h, key);
      assert keys[h := key][..n] == keys[..n][h := key];
    }
  }

  lemma {:induction false} FilledAll(keys: seq<int>)
    requires forall h {:trigger keys[h]} :: 0 <= h < |keys| ==> keys[h] >= 0
    ensures Filled(keys) == |keys|
  {
    if keys != [] { FilledAll(keys[..|keys| - 1]); }
  }

  lemma {:induction false} FilledNone(n: nat)
    ensures Filled(seq(n, _ => EMPTY)) == 0
  {
    if n > 0 {
      FilledNone(n - 1);
      assert seq(n, _ => EMPTY)[..n - 1] == seq(n - 1, _ => EMPTY);
    }
  }

  /** Probing from any key comes by every slot. */
  lemma SlotReached(key: nat, x: nat, cap: nat) returns (j: nat)
    requires x < cap
    ensures j < cap && Slot(key, j, cap) == x
  {
    var k := key % cap;
    j := if x >= k then x - k else x - k + cap;
    ModShift(key, j, cap, x);
  }

  lemma ModShift(key: nat, j: nat, cap: nat, x: nat)
    requires x < cap && j < cap && (j == x - key % cap || j == x - key % cap + cap)
    ensures (key + j) % cap == x
  {
    var q := key / cap;
    assert key == q * cap + key % cap;
    if j == x - key % cap {
      assert key + j == q * cap + x;
      ModIs(q, cap, x);
    } else {
      assert key + j == (q + 1) * cap + x by { assert (q + 1) * cap == q * cap + cap; }
      ModIs(q + 1, cap, x);
    }
  }

  lemma {:induction false} ModIs(q: nat, cap: nat, x: nat)
    requires x < cap
    ensures (q * cap + x) % cap == x
  {
    var n := q * cap + x;
    var d, r := n / cap, n % cap;
    assert n == d * cap + r;
    if d < q { Above(d, q, cap); } else if d > q { Above(q, d, cap); }
  }

  lemma {:induction false} Above(a: nat, b: nat, cap: nat)
    requires a < b
    ensures b * cap >= a * cap + cap
  {
    assert b * cap == (b - 1) * cap + cap;
    if a < b - 1 { Above(a, b - 1, cap); }
  }

  /** Each key sits dist[h] probes from its start, with no gap before it. */
  ghost predicate Probed(keys: seq<int>, dist: seq<nat>, h: nat)
    requires |keys| == |dist| && h < |keys| && keys[h] >= 0
  {
    && dist[h] < |keys| && Slot(keys[h], dist[h], |keys|) == h
    && forall j: nat {:trigger Slot(keys[h], j, |keys|)} :: j < dist[h] ==> keys[Slot(keys[h], j, |keys|)] >= 0
  }

  ghost predicate TableOk(keys: seq<int>, ids: seq<nat>, dist: seq<nat>, contents: map<int, nat>)
  {
    && |keys| == |ids| == |dist| > 0
    && (forall h: nat {:trigger keys[h]} ::
      h < |keys| && keys[h] >= 0 ==> Probed(keys, dist, h) && keys[h] in contents && contents[keys[h]] == ids[h])
    && (forall g: nat, h: nat {:trigger keys[g], keys[h]} :: g < h < |keys| && keys[g] >= 0 ==> keys[g] != keys[h])
    && (forall k {:trigger k in contents} :: k in contents ==> k >= 0 && k in keys)
    && Filled(keys) == |contents|
  }

  /** A free slot at the end of key's probes means key is not there. */
  lemma NotThere(keys: seq<int>, ids: seq<nat>, dist: seq<nat>, contents: map<int, nat>, key: nat, d: nat)
    requires TableOk(keys, ids, dist, contents) && d < |keys| && keys[Slot(key, d, |keys|)] < 0
    requires forall j: nat {:trigger Slot(key, j, |keys|)} :: j < d ==> keys[Slot(key, j, |keys|)] != key
    ensures key !in contents
  {
    hide Filled, Slot;
    forall h: nat | h < |keys| ensures keys[h] != key {
      if keys[h] >= 0 { assert Probed(keys, dist, h); }
    }
  }

  lemma Inserted(keys: seq<int>, ids: seq<nat>, dist: seq<nat>, contents: map<int, nat>, key: nat, id: nat, d: nat)
    requires TableOk(keys, ids, dist, contents) && d < |keys| && keys[Slot(key, d, |keys|)] < 0 && key !in contents
    requires forall j: nat {:trigger Slot(key, j, |keys|)} :: j < d ==> keys[Slot(key, j, |keys|)] >= 0
    ensures var h := Slot(key, d, |keys|); TableOk(keys[h := key], ids[h := id], dist[h := d], contents[key := id])
  {
    var h := Slot(key, d, |keys|);
    FilledSet(keys, h, key);
    var keys', dist' := keys[h := key], dist[h := d];
    assert key !in keys;
    hide Filled, Slot;
    forall g: nat | g < |keys'| && keys'[g] >= 0 ensures Probed(keys', dist', g) {
      if g != h { assert Probed(keys, dist, g); }
    }
    forall k | k in contents[key := id] ensures k in keys' {
      if k == key { assert keys'[h] == key; } else
        { assert k in keys && k >= 0; var g :| 0 <= g < |keys| && keys[g] == k; assert keys'[g] == k; }
    }
  }

  class Table {
    var keys: seq<int>
    var ids: seq<nat>
    var count: nat
    ghost var dist: seq<nat>
    ghost var contents: map<int, nat>

    ghost predicate Valid()
      reads this
    {
      TableOk(keys, ids, dist, contents) && count == |contents| && count < |keys| && |keys| >= 4
    }

    constructor ()
      ensures Valid() && contents == map[]
    {
      keys := seq(1024, _ => EMPTY);
      ids := seq(1024, _ => 0);
      count := 0;
      dist := seq(1024, _ => 0);
      contents := map[];
      new;
      FilledNone(1024);
    }

    /** Walk from key's slot to key or to a free slot. A free slot is always found. */
    method Probe(key: nat) returns (h: nat, found: bool, ghost d: nat)
      requires TableOk(keys, ids, dist, contents) && |contents| < |keys|
      ensures d < |keys| && h == Slot(key, d, |keys|) && (found <==> keys[h] == key) && (!found ==> keys[h] < 0)
      ensures forall j: nat {:trigger Slot(key, j, |keys|)} ::
        j < d ==> keys[Slot(key, j, |keys|)] >= 0 && keys[Slot(key, j, |keys|)] != key
    {
      hide Filled;
      h := key % |keys|;
      d := 0;
      while keys[h] >= 0
        invariant d < |keys| && h == Slot(key, d, |keys|)
        invariant forall j: nat {:trigger Slot(key, j, |keys|)} ::
          j < d ==> keys[Slot(key, j, |keys|)] >= 0 && keys[Slot(key, j, |keys|)] != key
        decreases |keys| - d
      {
        hide Filled;
        if keys[h] == key { return h, true, d; }
        if d + 1 == |keys| { NotFull(keys, key, d); }
        assert (h + 1) % |keys| == Slot(key, d + 1, |keys|) by { NextSlot(key, d, |keys|); }
        h := (h + 1) % |keys|;
        d := d + 1;
      }
      found := false;
    }

    /** Enter a key that is not there. */
    method Put(key: nat, id: nat)
      requires TableOk(keys, ids, dist, contents) && |contents| < |keys| && key !in contents
      modifies this`keys, this`ids, this`dist, this`contents
      ensures TableOk(keys, ids, dist, contents) && contents == old(contents)[key := id] && |keys| == |old(keys)|
    {
      hide Filled;
      var h, found, d := Probe(key);
      assert !found;
      hide TableOk;
      Inserted(keys, ids, dist, contents, key, id, d);
      keys := keys[h := key];
      ids := ids[h := id];
      dist := dist[h := d];
      contents := contents[key := id];
    }

    method Grow()
      requires Valid()
      modifies this
      ensures Valid() && contents == old(contents) && |keys| == 2 * |old(keys)|
    {
      hide Filled, TableOk, Probed;
      var oldKeys, oldIds, oldCap := keys, ids, |keys|;
      ghost var all, oldDist := contents, dist;
      Sizes(keys, ids, dist, contents);
      keys := seq(2 * oldCap, _ => EMPTY);
      ids := seq(2 * oldCap, _ => 0);
      dist := seq(2 * oldCap, _ => 0);
      contents := map[];
      EmptyTable(2 * oldCap);
      var i := 0;
      while i < oldCap
        invariant 0 <= i <= oldCap && |keys| == 2 * oldCap && TableOk(keys, ids, dist, contents)
        invariant |contents| <= i && Moving(oldKeys, i, all, contents) && count == old(count)
      {
        hide Filled, TableOk, Probed, Moving;
        ghost var before := contents;
        if oldKeys[i] >= 0 {
          MapOk(oldKeys, oldIds, oldDist, all, i);
          NotMoved(oldKeys, i, all, contents);
          Put(oldKeys[i], oldIds[i]);
        }
        MovedOn(oldKeys, i, all, before, contents);
        i := i + 1;
      }
      AllMoved(oldKeys, oldIds, oldDist, all, contents);
    }

    /** The number of key: the one it has, or newId from now on. */
    method GetOrPut(key: nat, newId: nat) returns (known: bool, id: nat)
      requires Valid()
      modifies this
      ensures Valid() && (known <==> key in old(contents))
      ensures contents == if known then old(contents) else old(contents)[key := newId]
      ensures id == contents[key]
    {
      hide Filled;
      if count * 4 >= |keys| * 3 { Grow(); }
      var h, found, d := Probe(key);
      if found {
        return true, ids[h];
      }
      NotThere(keys, ids, dist, contents, key, d);
      Put(key, newId);
      count := count + 1;
      return false, newId;
    }
  }

  lemma NotFull(keys: seq<int>, key: nat, d: nat)
    requires d + 1 == |keys| && keys[Slot(key, d, |keys|)] >= 0
    requires forall j: nat {:trigger Slot(key, j, |keys|)} :: j < d ==> keys[Slot(key, j, |keys|)] >= 0
    ensures Filled(keys) == |keys|
  {
    forall x: nat | x < |keys| ensures keys[x] >= 0 { var j := SlotReached(key, x, |keys|); }
    FilledAll(keys);
  }

  lemma NextSlot(key: nat, d: nat, cap: nat)
    requires cap > 0
    ensures (Slot(key, d, cap) + 1) % cap == Slot(key, d + 1, cap)
  {
    var n := key + d;
    var q, r := n / cap, n % cap;
    assert n + 1 == q * cap + (r + 1);
    if r + 1 < cap {
      ModIs(q, cap, r + 1);
      ModIs(0, cap, r + 1);
    } else {
      assert n + 1 == (q + 1) * cap + 0 by { assert (q + 1) * cap == q * cap + cap; }
      ModIs(q + 1, cap, 0);
      ModIs(1, cap, 0);
    }
  }

  lemma MapOk(keys: seq<int>, ids: seq<nat>, dist: seq<nat>, contents: map<int, nat>, i: nat)
    requires TableOk(keys, ids, dist, contents) && i < |keys| && keys[i] >= 0
    ensures i < |ids| && keys[i] in contents && contents[keys[i]] == ids[i] && keys[i] !in keys[..i]
  {}

  /** The first i slots of the old table have been entered in the new one. */
  ghost predicate Moving(oldKeys: seq<int>, i: nat, all: map<int, nat>, contents: map<int, nat>)
    requires i <= |oldKeys|
  {
    && (forall k {:trigger k in contents} :: k in contents ==> k in oldKeys[..i] && k in all && contents[k] == all[k])
    && (forall j {:trigger oldKeys[j]} :: 0 <= j < i && oldKeys[j] >= 0 ==> oldKeys[j] in contents)
  }

  lemma NotMoved(oldKeys: seq<int>, i: nat, all: map<int, nat>, contents: map<int, nat>)
    requires i < |oldKeys| && Moving(oldKeys, i, all, contents) && oldKeys[i] !in oldKeys[..i]
    ensures oldKeys[i] !in contents
  {
    var k, front := oldKeys[i], oldKeys[..i];
    assert k in contents ==> k in front;
  }

  lemma MovedOn(oldKeys: seq<int>, i: nat, all: map<int, nat>, before: map<int, nat>, contents: map<int, nat>)
    requires i < |oldKeys| && Moving(oldKeys, i, all, before)
    requires if oldKeys[i] >= 0 then oldKeys[i] in all && contents == before[oldKeys[i] := all[oldKeys[i]]]
      else contents == before
    ensures Moving(oldKeys, i + 1, all, contents)
  {
    assert oldKeys[..i + 1] == oldKeys[..i] + [oldKeys[i]];
  }

  lemma Sizes(keys: seq<int>, ids: seq<nat>, dist: seq<nat>, contents: map<int, nat>)
    requires TableOk(keys, ids, dist, contents)
    ensures |keys| == |ids| == |dist| > 0
  {}

  lemma EmptyTable(n: nat)
    requires n > 0
    ensures TableOk(seq(n, _ => EMPTY), seq(n, _ => 0), seq(n, _ => 0), map[])
  {
    FilledNone(n);
  }

  lemma AllMoved(keys: seq<int>, ids: seq<nat>, dist: seq<nat>, all: map<int, nat>, contents: map<int, nat>)
    requires TableOk(keys, ids, dist, all)
    requires Moving(keys, |keys|, all, contents)
    ensures contents == all
  {
    forall k | k in all ensures k in contents { var h :| 0 <= h < |keys| && keys[h] == k; }
    forall k | k in contents ensures k in all && contents[k] == all[k] {}
    assert contents.Keys == all.Keys;
  }
}
