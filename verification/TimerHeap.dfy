/** The timer heap (vm/concurrency/Scheduler.c): a binary heap by deadline in a growing array,
    whose first entry tells waitForEvents how long it may wait. */
module TimerHeap {

  datatype Timer = Timer(deadline: int, fiberId: nat)

  function Parent(i: nat): (p: nat)
    requires i > 0
    ensures p < i && (i == 2 * p + 1 || i == 2 * p + 2)
  {
    (i - 1) / 2
  }

  /** Entry i is no earlier than its parent. */
  predicate Ordered(ts: seq<Timer>, i: nat)
    requires i < |ts|
  {
    i == 0 || ts[Parent(i)].deadline <= ts[i].deadline
  }

  ghost predicate IsHeap(ts: seq<Timer>)
  {
    forall i: nat {:trigger Ordered(ts, i)} :: i < |ts| ==> Ordered(ts, i)
  }

  /** What waitForEvents and wakeExpiredTimers rely on. */
  lemma {:induction false} FirstIsEarliest(ts: seq<Timer>, i: nat)
    requires IsHeap(ts) && i < |ts|
    ensures ts[0].deadline <= ts[i].deadline
    decreases i
  {
    if i > 0 {
      assert Ordered(ts, i);
      FirstIsEarliest(ts, Parent(i));
    }
  }

  /** All but entry k are in order, and k's children are no earlier than k's parent. */
  ghost predicate HeapBut(ts: seq<Timer>, k: nat)
  {
    && (forall i: nat {:trigger Ordered(ts, i)} :: i < |ts| && i != k ==> Ordered(ts, i))
    && (forall i: nat {:trigger ts[i]} ::
      0 < i < |ts| && 0 < k < |ts| && Parent(i) == k ==> ts[Parent(k)].deadline <= ts[i].deadline)
  }

  /** Entry i is in order, or a child of k and no earlier than k's parent. */
  ghost predicate OrderedBut(ts: seq<Timer>, k: nat, i: nat)
    requires i < |ts|
  {
    if i > 0 && Parent(i) == k then k == 0 || k >= |ts| || ts[Parent(k)].deadline <= ts[i].deadline else Ordered(ts, i)
  }

  ghost predicate HeapButBelow(ts: seq<Timer>, k: nat)
  {
    forall i: nat {:trigger OrderedBut(ts, k, i)} :: i < |ts| ==> OrderedBut(ts, k, i)
  }

  /** No child of i is earlier than c. */
  ghost predicate EarliestChild(ts: seq<Timer>, i: nat, c: nat)
    requires c < |ts|
  {
    forall j: nat {:trigger ts[j]} :: 0 < j < |ts| && Parent(j) == i ==> ts[c].deadline <= ts[j].deadline
  }

  function Swapped(ts: seq<Timer>, i: nat, j: nat): (r: seq<Timer>)
    requires i < |ts| && j < |ts|
    ensures |r| == |ts|
  {
    ts[i := ts[j]][j := ts[i]]
  }

  lemma SwapMultiset(ts: seq<Timer>, i: nat, j: nat)
    requires i < |ts| && j < |ts|
    ensures multiset(Swapped(ts, i, j)) == multiset(ts)
  {}

  lemma SiftUp(ts: seq<Timer>, i: nat)
    requires 0 < i < |ts| && HeapBut(ts, i) && ts[i].deadline < ts[Parent(i)].deadline
    ensures HeapBut(Swapped(ts, Parent(i), i), Parent(i))
  {
    var p := Parent(i);
    var r := Swapped(ts, p, i);
    forall j: nat | j < |r| && j != p ensures Ordered(r, j) {
      assert j != i ==> Ordered(ts, j);
      assert p > 0 ==> Ordered(ts, p);
    }
    forall j: nat | 0 < j < |r| && 0 < p && Parent(j) == p ensures r[Parent(p)].deadline <= r[j].deadline {
      assert j != i ==> Ordered(ts, j);
      assert Ordered(ts, p);
    }
  }

  lemma SiftDown(ts: seq<Timer>, i: nat, c: nat)
    requires HeapButBelow(ts, i) && i < c < |ts| && Parent(c) == i && ts[c].deadline < ts[i].deadline
    requires EarliestChild(ts, i, c)
    ensures HeapButBelow(Swapped(ts, c, i), c)
  {
    var r := Swapped(ts, c, i);
    forall j: nat | j < |r| ensures OrderedBut(r, c, j) {
      assert OrderedBut(ts, i, j) && OrderedBut(ts, i, i) && OrderedBut(ts, i, c);
      if j > 0 && Parent(j) == i { assert ts[c].deadline <= ts[j].deadline; }
    }
  }

  class Heap {
    var timers: array<Timer>
    var count: nat

    ghost predicate Valid()
      reads this, timers
    {
      count <= timers.Length && IsHeap(timers[..count])
    }

    ghost function Contents(): seq<Timer>
      reads this, timers
      requires count <= timers.Length
    {
      timers[..count]
    }

    constructor ()
      ensures Valid() && count == 0 && fresh(timers)
    {
      timers := new Timer[0];
      count := 0;
    }

    /** timerPush. */
    method Push(deadline: int, fiberId: nat)
      requires Valid()
      modifies this, timers
      ensures Valid() && (timers == old(timers) || fresh(timers))
      ensures multiset(Contents()) == multiset(old(Contents())) + multiset{Timer(deadline, fiberId)}
    {
      hide HeapBut, IsHeap;
      if count == timers.Length { Grow(); }
      ghost var before := timers[..count];
      timers[count] := Timer(deadline, fiberId);
      count := count + 1;
      assert timers[..count] == before + [Timer(deadline, fiberId)];
      Appended(before, Timer(deadline, fiberId));
      Rise(count - 1);
    }

    /** The loop of timerPush. */
    method Rise(from: nat)
      requires from < count <= timers.Length && HeapBut(timers[..count], from)
      modifies timers
      ensures IsHeap(timers[..count]) && multiset(timers[..count]) == multiset(old(timers[..count]))
    {
      var i: nat := from;
      while i > 0
        invariant i < count <= timers.Length && HeapBut(timers[..count], i)
        invariant multiset(timers[..count]) == multiset(old(timers[..count]))
      {
        hide HeapBut, IsHeap, Ordered;
        var parent := (i - 1) / 2;
        ghost var ts := timers[..count];
        if timers[parent].deadline <= timers[i].deadline {
          Placed(ts, i);
          return;
        }
        SiftUp(ts, i);
        SwapMultiset(ts, parent, i);
        var tmp := timers[parent];
        timers[parent] := timers[i];
        timers[i] := tmp;
        assert timers[..count] == Swapped(ts, parent, i);
        i := parent;
      }
    }

    method Grow()
      requires count == timers.Length
      modifies this`timers
      ensures fresh(timers) && timers.Length > count && timers[..count] == old(timers[..count])
    {
      var larger := new Timer[if timers.Length == 0 then 16 else timers.Length * 2](_ => Timer(0, 0));
      forall i | 0 <= i < count { larger[i] := timers[i]; }
      timers := larger;
    }

    /** The later of the two comparisons of timerPop: the child, if any, that is earlier than i. */
    method Smallest(i: nat) returns (smallest: nat)
      requires i < count <= timers.Length
      ensures smallest < count
      ensures smallest == i || (smallest > 0 && Parent(smallest) == i && timers[smallest].deadline < timers[i].deadline)
      ensures EarliestChild(timers[..count], i, smallest)
    {
      var left, right := 2 * i + 1, 2 * i + 2;
      smallest := i;
      if left < count && timers[left].deadline < timers[smallest].deadline { smallest := left; }
      if right < count && timers[right].deadline < timers[smallest].deadline { smallest := right; }
    }

    /** timerPop, called with a timer there. */
    method Pop()
      requires Valid() && count > 0
      modifies this`count, timers
      ensures Valid() && count == old(count) - 1
      ensures multiset(old(Contents())) == multiset(Contents()) + multiset{old(timers[0])}
    {
      hide HeapButBelow, IsHeap;
      ghost var before := timers[..count];
      count := count - 1;
      timers[0] := timers[count];
      Removed(before, timers[..count]);
      if count == 0 {
        NoneLeft(timers[..0]);
      } else {
        Sink();
      }
    }

    /** wakeExpiredTimers: takes out exactly the timers that are due, the earliest first, whose
        fibers it wakes. */
    method WakeExpired(now: int) returns (woken: seq<Timer>)
      requires Valid()
      modifies this`count, timers
      ensures Valid() && multiset(old(Contents())) == multiset(Contents()) + multiset(woken)
      ensures AllDue(woken, now) && AllLater(Contents(), now) && EarliestFirst(woken)
    {
      woken := [];
      while count > 0 && timers[0].deadline <= now
        invariant Valid() && multiset(old(Contents())) == multiset(Contents()) + multiset(woken) && AllDue(woken, now)
        invariant EarliestFirst(woken)
        invariant woken != [] ==> NoneBefore(multiset(Contents()), woken[|woken| - 1].deadline)
        decreases count
      {
        hide IsHeap, Ordered, NoneBefore, EarliestFirst, AllDue;
        var first := timers[0];
        FirstLeads(timers[..count]);
        ghost var before := multiset(Contents());
        Pop();
        OneMoreWoken(woken, before, multiset(Contents()), first, now);
        woken := woken + [first];
      }
      NoneDue(timers[..count], now);
    }

    /** The loop of timerPop. */
    method Sink()
      requires 0 < count <= timers.Length && HeapButBelow(timers[..count], 0)
      modifies timers
      ensures IsHeap(timers[..count]) && multiset(timers[..count]) == multiset(old(timers[..count]))
    {
      var i: nat := 0;
      while true
        invariant i < count <= timers.Length && HeapButBelow(timers[..count], i)
        invariant multiset(timers[..count]) == multiset(old(timers[..count]))
        decreases count - i
      {
        hide HeapButBelow, IsHeap, Ordered, OrderedBut, EarliestChild;
        ghost var ts := timers[..count];
        var smallest := Smallest(i);
        if smallest == i {
          Settled(ts, i);
          return;
        }
        SiftDown(ts, i, smallest);
        SwapMultiset(ts, smallest, i);
        var tmp := timers[smallest];
        timers[smallest] := timers[i];
        timers[i] := tmp;
        assert timers[..count] == Swapped(ts, smallest, i);
        i := smallest;
      }
    }
  }

  ghost predicate EarliestFirst(ts: seq<Timer>)
  {
    forall i, j {:trigger ts[i], ts[j]} :: 0 <= i < j < |ts| ==> ts[i].deadline <= ts[j].deadline
  }

  ghost predicate NoneBefore(ts: multiset<Timer>, deadline: int)
  {
    forall t {:trigger ts[t]} :: ts[t] > 0 ==> deadline <= t.deadline
  }

  lemma FirstLeads(ts: seq<Timer>)
    requires IsHeap(ts) && ts != []
    ensures ts[0] in multiset(ts) && NoneBefore(multiset(ts), ts[0].deadline)
  {
    hide IsHeap;
    forall t | multiset(ts)[t] > 0 ensures ts[0].deadline <= t.deadline {
      var i :| 0 <= i < |ts| && ts[i] == t;
      FirstIsEarliest(ts, i);
    }
  }

  lemma FewerBefore(ts: multiset<Timer>, rest: multiset<Timer>, t: Timer)
    requires ts == rest + multiset{t} && NoneBefore(ts, t.deadline)
    ensures NoneBefore(rest, t.deadline)
  {
    forall x | rest[x] > 0 ensures t.deadline <= x.deadline { assert ts[x] > 0; }
  }

  lemma OneLater(woken: seq<Timer>, ts: multiset<Timer>, t: Timer)
    requires EarliestFirst(woken) && t in ts && (woken != [] ==> NoneBefore(ts, woken[|woken| - 1].deadline))
    ensures EarliestFirst(woken + [t])
  {
    if woken != [] { assert ts[t] > 0; }
    forall i | 0 <= i < |woken| ensures woken[i].deadline <= t.deadline { var _ := woken[|woken| - 1]; }
  }

  lemma OneMoreWoken(woken: seq<Timer>, ts: multiset<Timer>, rest: multiset<Timer>, t: Timer, now: int)
    requires EarliestFirst(woken) && AllDue(woken, now) && t.deadline <= now
    requires woken != [] ==> NoneBefore(ts, woken[|woken| - 1].deadline)
    requires ts == rest + multiset{t} && NoneBefore(ts, t.deadline)
    ensures EarliestFirst(woken + [t]) && AllDue(woken + [t], now) && NoneBefore(rest, t.deadline)
    ensures rest + multiset(woken + [t]) == ts + multiset(woken)
  {
    FewerBefore(ts, rest, t);
    assert ts[t] > 0;
    OneLater(woken, ts, t);
  }

  lemma NoneLeft(ts: seq<Timer>)
    requires ts == []
    ensures IsHeap(ts)
  {}

  lemma Appended(ts: seq<Timer>, t: Timer)
    requires IsHeap(ts)
    ensures HeapBut(ts + [t], |ts|)
  {
    var r := ts + [t];
    forall i: nat | i < |ts| ensures Ordered(r, i) { assert Ordered(ts, i); }
  }

  lemma Placed(ts: seq<Timer>, i: nat)
    requires 0 < i < |ts| && HeapBut(ts, i) && ts[Parent(i)].deadline <= ts[i].deadline
    ensures IsHeap(ts)
  {}

  lemma Settled(ts: seq<Timer>, i: nat)
    requires i < |ts| && HeapButBelow(ts, i)
    requires EarliestChild(ts, i, i)
    ensures IsHeap(ts)
  {
    forall j: nat | j < |ts| ensures Ordered(ts, j) { assert OrderedBut(ts, i, j); }
  }

  /** The last entry takes the place of the first. */
  ghost predicate LastFirst(before: seq<Timer>, after: seq<Timer>)
  {
    before != [] && after == if |before| == 1 then [] else before[..|before| - 1][0 := before[|before| - 1]]
  }

  lemma Removed(before: seq<Timer>, after: seq<Timer>)
    requires IsHeap(before) && LastFirst(before, after)
    ensures HeapButBelow(after, 0) && multiset(before) == multiset(after) + multiset{before[0]}
  {
    forall i: nat | i < |after| ensures OrderedBut(after, 0, i) { assert Ordered(before, i); }
    hide IsHeap, HeapButBelow;
    RemovedMultiset(before, after);
  }

  lemma RemovedMultiset(before: seq<Timer>, after: seq<Timer>)
    requires LastFirst(before, after)
    ensures multiset(before) == multiset(after) + multiset{before[0]}
  {
    var last := |before| - 1;
    var front := before[..last];
    assert before == front + [before[last]];
    if last > 0 {
      assert multiset(front[0 := before[last]]) == multiset(front) - multiset{front[0]} + multiset{before[last]};
    }
  }

  ghost predicate AllDue(ts: seq<Timer>, now: int)
  {
    forall i {:trigger ts[i]} :: 0 <= i < |ts| ==> ts[i].deadline <= now
  }

  ghost predicate AllLater(ts: seq<Timer>, now: int)
  {
    forall i {:trigger ts[i]} :: 0 <= i < |ts| ==> now < ts[i].deadline
  }

  lemma NoneDue(ts: seq<Timer>, now: int)
    requires IsHeap(ts) && (ts == [] || now < ts[0].deadline)
    ensures AllLater(ts, now)
  {
    forall i: nat | i < |ts| ensures now < ts[i].deadline { FirstIsEarliest(ts, i); }
  }
}
