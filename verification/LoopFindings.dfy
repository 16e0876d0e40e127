/** Codes whose ranges (vm/jit/RegisterAllocator.c) miss a value carried around a loop. */
module LoopFindings {
  import opened Options
  import opened BytecodeMachine
  import opened RegisterScan
  import opened Liveness
  import opened LiveRanges
  import opened PathLiveness

  // ----- a temporary first mentioned after the loop's target -----

  /** A send; return the temporary unless it is nil; set it and go around. */
  const LATE: Code := [
    Send(1, Nil, [], None), JumpNotMemberOf(0, Temp(2), 10), Copy(True, Temp(2)), Jump(-25), Return(Temp(2))]

  lemma LateOffsets()
    ensures Offset(LATE, 1) == 5 && Offset(LATE, 2) == 15 && Offset(LATE, 3) == 20 && Offset(LATE, 4) == 25
    ensures Target(LATE, 1) == Some(4) && Target(LATE, 3) == Some(0)
  {
    assert Offset(LATE, 1) == 5;
    assert Offset(LATE, 2) == 15;
    assert Offset(LATE, 3) == 20;
    assert Offset(LATE, 4) == 25;
    TargetIs(LATE, 1, 4);
    TargetIs(LATE, 3, 0);
  }

  lemma LateSteps()
    ensures Next(LATE, 0, 1) && Next(LATE, 1, 2) && Next(LATE, 2, 3) && Next(LATE, 3, 0)
  {
    LateOffsets();
    assert JumpsTo(LATE, 3, 0);
  }

  lemma LateCarried()
    ensures Carried(LATE, 2, 0)
  {
    LateSteps();
    hide Next, Reachable, Written, Live, NamedAll, Offset;
    EntryReachable(LATE);
    ReachableNext(LATE, 0, 1);
    ReachableNext(LATE, 1, 2);
    WrittenHere(LATE, 2, 2, 3);
    WrittenAfter(LATE, 2, 3, 0);
    assert ReadOperands(LATE[1]) == [Temp(2)];
    OneNamed(Temp(2));
    ReadLive(LATE, 2, 1);
    LiveBefore(LATE, 2, 0, 1);
  }

  lemma LateMentions()
    ensures 1 in Mentions(LATE, 2, |LATE|) && 0 !in Mentions(LATE, 2, |LATE|)
  {
    assert Operands(LATE[1]) == [Temp(2)] && Operands(LATE[0]) == [Nil];
    OneNamed(Temp(2));
    OneNamed(Nil);
  }

  /** At the send the temporary holds the value of the last round, but its range starts after. */
  lemma LateStart(x: Variable)
    requires Exact(x, LATE, 2)
    ensures Carried(LATE, 2, 0) && x.start == 1 && !Covers(LATE, 2, x.start, x.gcEnd)
  {
    LateCarried();
    LateMentions();
    hide Carried, Mentions, LoopEnds;
  }

  /** A world whose sends answer nil, and in which nil has class 10 and everything else class 11. */
  const PLAIN: World := World(
    (s, c, r, args, h) => Some((NIL, h)), (h, v) => if v == NIL then Value(10) else Value(11),
    (h, v, l) => NIL, (b, s, c) => NIL, NIL)

  const LATE_METHOD: Method := Method(LATE, [Value(10), Value(20)], 0, 1, false, false, false, 0, NIL)

  const EMPTY: Heap := Heap(map[], [], 0)

  ghost function AtSend(v: Value): Conf
  {
    Running(0, Slots([NIL, NIL])[2 := v], EMPTY)
  }

  lemma RoundFrom(f: Frame)
    ensures var c := Running(0, f, EMPTY);
      Steps(PLAIN, LATE_METHOD, c, 2) ==
      if Get(f, 2) == NIL then Running(2, f, EMPTY) else Running(4, f, EMPTY)
  {
    LateOffsets();
    var c := Running(0, f, EMPTY);
    var c1 := Step(PLAIN, LATE_METHOD, c);
    assert c1 == Running(1, f, EMPTY);
    var c2 := Step(PLAIN, LATE_METHOD, c1);
    assert Steps(PLAIN, LATE_METHOD, c, 2) == Steps(PLAIN, LATE_METHOD, c1, 1) == Steps(PLAIN, LATE_METHOD, c2, 0);
  }

  lemma FirstRound()
    ensures Steps(PLAIN, LATE_METHOD, Entry(PLAIN, NIL, [], EMPTY), 4) == AtSend(TRUE)
  {
    LateOffsets();
    var c := Entry(PLAIN, NIL, [], EMPTY);
    assert [NIL, NIL] + [] == [NIL, NIL];
    var f := Slots([NIL, NIL]);
    RoundFrom(f);
    StepsAdd(PLAIN, LATE_METHOD, c, 2, 2);
    var c2 := Running(2, f, EMPTY);
    var c3 := Running(3, f[2 := TRUE], EMPTY);
    assert Step(PLAIN, LATE_METHOD, c2) == c3;
    assert Step(PLAIN, LATE_METHOD, c3) == AtSend(TRUE);
    assert Steps(PLAIN, LATE_METHOD, c2, 2) == Steps(PLAIN, LATE_METHOD, c3, 1) ==
      Steps(PLAIN, LATE_METHOD, AtSend(TRUE), 0);
  }

  lemma SecondRound(v: Value)
    requires v != NIL
    ensures Steps(PLAIN, LATE_METHOD, AtSend(v), 3) == Done(v, false, EMPTY)
    ensures Steps(PLAIN, LATE_METHOD, AtSend(v), 2).Running?
  {
    var c := AtSend(v);
    RoundFrom(c.frame);
    StepsAdd(PLAIN, LATE_METHOD, c, 2, 1);
    var c2 := Running(4, c.frame, EMPTY);
    assert Steps(PLAIN, LATE_METHOD, c2, 1) == Steps(PLAIN, LATE_METHOD, Step(PLAIN, LATE_METHOD, c2), 0);
  }

  lemma OneAnswer(w: World, m: Method, c: Conf, k: nat, v: Value, o: bool, h: Heap, v': Value)
    requires Steps(w, m, c, k) == Done(v, o, h) && v' != v
    ensures !Answers(w, m, c, v', o, h)
  {
    forall n: nat ensures Steps(w, m, c, n) != Done(v', o, h) {
      if n <= k { StepsAdd(w, m, c, n, k - n); } else { StepsAdd(w, m, c, k, n - k); }
    }
  }

  /** A run in which it matters: the second time at the send, the answer is the temporary's value,
      and the instruction's number is outside the temporary's range. */
  lemma LateRun(x: Variable)
    requires Exact(x, LATE, 2)
    ensures var c := Steps(PLAIN, LATE_METHOD, Entry(PLAIN, NIL, [], EMPTY), 4);
      && c.Running? && c.pc == 0 && c.pc < x.start && Get(c.frame, 2) == TRUE
      && Answers(PLAIN, LATE_METHOD, c, TRUE, false, EMPTY)
      && !Answers(PLAIN, LATE_METHOD, c.(frame := c.frame[2 := FALSE]), TRUE, false, EMPTY)
  {
    LateStart(x);
    FirstRound();
    SecondRound(TRUE);
    SecondRound(FALSE);
    assert AtSend(TRUE).frame[2 := FALSE] == AtSend(FALSE).frame;
    OneAnswer(PLAIN, LATE_METHOD, AtSend(FALSE), 3, FALSE, false, EMPTY, TRUE);
  }

  // ----- loops that cross -----

  /** The loops from 0 to 3 and from 2 to 5 cross. */
  const CROSSED: Code := [
    Copy(Temp(2), Temp(3)), Copy(Nil, Temp(2)), Copy(Nil, Temp(4)), JumpNotMemberOf(0, Nil, -25),
    Send(1, Nil, [], None), Jump(-23)]

  lemma CrossedOffsets()
    ensures Target(CROSSED, 3) == Some(0) && Target(CROSSED, 5) == Some(2)
  {
    assert Offset(CROSSED, 1) == 7;
    assert Offset(CROSSED, 2) == 12;
    assert Offset(CROSSED, 3) == 17;
    assert Offset(CROSSED, 4) == 25;
    assert Offset(CROSSED, 5) == 30;
    assert Offset(CROSSED, 6) == 35;
    TargetIs(CROSSED, 3, 0);
    TargetIs(CROSSED, 5, 2);
  }

  lemma CrossedSteps()
    ensures Next(CROSSED, 0, 1) && Next(CROSSED, 1, 2) && Next(CROSSED, 2, 3) && Next(CROSSED, 3, 4)
    ensures Next(CROSSED, 3, 0) && Next(CROSSED, 4, 5) && Next(CROSSED, 5, 2)
  {
    CrossedOffsets();
    assert JumpsTo(CROSSED, 3, 0) && JumpsTo(CROSSED, 5, 2);
  }

  lemma CrossedCarried()
    ensures Carried(CROSSED, 2, 4)
  {
    CrossedSteps();
    hide Next, Reachable, Written, Live, NamedAll, Offset;
    EntryReachable(CROSSED);
    ReachableNext(CROSSED, 0, 1);
    WrittenHere(CROSSED, 2, 1, 2);
    WrittenAfter(CROSSED, 2, 2, 3);
    WrittenAfter(CROSSED, 2, 3, 4);
    assert ReadOperands(CROSSED[0]) == [Temp(2)];
    OneNamed(Temp(2));
    ReadLive(CROSSED, 2, 0);
    LiveBefore(CROSSED, 2, 3, 0);
    LiveBefore(CROSSED, 2, 2, 3);
    LiveBefore(CROSSED, 2, 5, 2);
    LiveBefore(CROSSED, 2, 4, 5);
  }

  lemma CrossedMentions()
    ensures 0 in Mentions(CROSSED, 2, 6)
    ensures forall m {:trigger m in Mentions(CROSSED, 2, 6)} :: m in Mentions(CROSSED, 2, 6) ==> m <= 1
  {
    assert 2 in Named(Operands(CROSSED[0])[0]);
    forall m: nat | 2 <= m <= 6 ensures !Mention(CROSSED, 2, 6, m) {
      assert StoreOf(CROSSED[m - 1]) == [];
      if m < 6 { NotNamed(Operands(CROSSED[m])); }
    }
  }

  lemma NotNamed(ops: seq<Operand>)
    requires forall k {:trigger ops[k]} :: 0 <= k < |ops| ==> ops[k] == Nil || ops[k] == Temp(4)
    ensures 2 !in NamedAll(ops)
  {
  }

  /** The send is past the range's end, because a loop widens only ranges that end in it. */
  lemma CrossedEnd(x: Variable)
    requires Exact(x, CROSSED, 2)
    ensures Carried(CROSSED, 2, 4) && x.gcEnd <= 3 && !Covers(CROSSED, 2, x.start, x.gcEnd)
  {
    CrossedCarried();
    CrossedMentions();
    hide Carried, Mentions;
    forall j | j in LoopEnds(CROSSED, 2, 6) ensures j <= 3 {
      var t: nat :| UsedInLoop(CROSSED, 2, 6, j, t);
      CrossedOffsets();
      BackwardIs(CROSSED, j, t);
    }
  }

  // ----- a temporary read at the top of a loop -----

  const TOP: Code := [Copy(Nil, Temp(2)), Copy(Temp(2), Temp(3)), Copy(Nil, Temp(4)), Jump(-17)]

  lemma TopSteps()
    ensures Next(TOP, 0, 1) && Next(TOP, 1, 2) && Next(TOP, 2, 3) && Next(TOP, 3, 1)
  {
    assert Offset(TOP, 1) == 5;
    assert Offset(TOP, 2) == 12;
    assert Offset(TOP, 3) == 17;
    assert Offset(TOP, 4) == 22;
    assert JumpsTo(TOP, 3, 1);
  }

  lemma TopCarried()
    ensures Carried(TOP, 2, 2)
  {
    TopSteps();
    hide Next, Reachable, Written, Live, NamedAll, Offset;
    EntryReachable(TOP);
    WrittenHere(TOP, 2, 0, 1);
    WrittenAfter(TOP, 2, 1, 2);
    assert ReadOperands(TOP[1]) == [Temp(2)];
    OneNamed(Temp(2));
    ReadLive(TOP, 2, 1);
    LiveBefore(TOP, 2, 3, 1);
    LiveBefore(TOP, 2, 2, 3);
  }

  lemma TopMentions()
    ensures 1 in Mentions(TOP, 2, 4)
    ensures forall m {:trigger m in Mentions(TOP, 2, 4)} :: m in Mentions(TOP, 2, 4) ==> m <= 1
  {
    assert 2 in Named(Operands(TOP[1])[0]);
    forall m: nat | 2 <= m <= 4 ensures !Mention(TOP, 2, 4, m) {
      assert StoreOf(TOP[m - 1]) == [];
      if m < 4 { NotNamed(Operands(TOP[m])); }
    }
  }

  /** The register is given up after the read although the next round reads the value again. */
  lemma TopEnd(x: Variable)
    requires Exact(x, TOP, 2)
    ensures Carried(TOP, 2, 2) && x.end <= 1 && !Covers(TOP, 2, x.start, x.end)
  {
    TopCarried();
    TopMentions();
    hide Carried, Mentions, LoopEnds;
  }
}
