/** Without the writes-before-reads condition the rewriting can answer differently: two sites
    share the inline area, the first leaves true in it, and the second callee, which should
    answer nil from its fresh temporary, answers true. */
module InlineStale {
  import opened Options
  import opened BytecodeMachine
  import opened InlineMeaning
  import opened InlineTheorem

  const CLASS := Value(10)

  ghost const WORLD := World((sel, st, r, args, h) => Some((NIL, h)), (h, v) => CLASS, (h, v, n) => NIL, (b, s, c) =>
    NIL, NIL)

  /** Writes its temporary and answers nil. */
  const WRITER := Method([Copy(True, Temp(2)), Return(Nil)], [], 0, 1, false, false, false, 0, NIL)
  /** Answers its temporary, unwritten. */
  const READER := Method([Return(Temp(2))], [], 0, 1, false, false, false, 0, NIL)

  const CALLER := Method(
    [Send(0, Arg(1), [], None), Send(1, Arg(1), [], Some(Temp(2))), Return(Temp(2))],
    [Value(11), Value(12)], 0, 1, false, false, false, 0, NIL)

  const INLINED := CALLER.(
    code := [
      JumpNotMemberOf(2, Arg(1), 17), Copy(Arg(1), Temp(3)), Copy(True, Temp(4)), Jump(7), Send(0, Arg(1), [], None),
      JumpNotMemberOf(2, Arg(1), 19), Copy(Arg(1), Temp(3)), Copy(Temp(4), Temp(2)), Jump(10),
        Send(1, Arg(1), [], Some(Temp(2))),
      Return(Temp(2))],
    literals := [Value(11), Value(12), CLASS])

  ghost const REWRITE := Rewrite(CALLER, INLINED, 3, [0, 5, 10, 11],
    map[0 := Site(CLASS, 2, WRITER, 0, [2, 3, 3]), 1 := Site(CLASS, 2, READER, 0, [7, 8])], (a, b) => a == b)

  lemma Offsets()
    ensures Offset(INLINED.code, 1) == 10 && Offset(INLINED.code, 4) == 27 && Offset(INLINED.code, 5) == 34
    ensures Offset(INLINED.code, 6) == 44 && Offset(INLINED.code, 9) == 63 && Offset(INLINED.code, 10) == 73
  {
    var c := INLINED.code;
    assert Offset(c, 0) == 0;
    assert Offset(c, 1) == 10;
    assert Offset(c, 2) == 17;
    assert Offset(c, 3) == 22;
    assert Offset(c, 4) == 27;
    assert Offset(c, 5) == 34;
    assert Offset(c, 6) == 44;
    assert Offset(c, 7) == 51;
    assert Offset(c, 8) == 58;
    assert Offset(c, 9) == 63;
    assert Offset(c, 10) == 73;
  }

  lemma Jumps()
    ensures JumpsTo(INLINED.code, 0, 4) && JumpsTo(INLINED.code, 3, 5) && JumpsTo(INLINED.code, 5, 9) &&
      JumpsTo(INLINED.code, 8, 10)
  {
    Offsets();
    hide Offset;
  }

  lemma NoFallThrough(code: Code)
    requires code != [] && code[|code| - 1].Return? && forall i {:trigger code[i]} ::
      0 <= i < |code| ==> !IsJump(code[i])
    ensures !CanFallThrough(code)
  {
    hide Offset;
  }

  lemma FirstSite()
    ensures SiteAt(REWRITE, 0, REWRITE.sites[0])
  {
    var s := REWRITE.sites[0];
    NoFallThrough(WRITER.code);
    Jumps();
    hide CanFallThrough, JumpsTo, Offset;
    assert BodyEnd(s, None) == 3;
    assert Adjusted(REWRITE, s, True, True) && Adjusted(REWRITE, s, Temp(2), Temp(4));
    assert BodyAt(REWRITE, s, None, 0);
    assert BodyAt(REWRITE, s, None, 1);
    assert Body(REWRITE, s, None);
  }

  lemma SecondSite()
    ensures SiteAt(REWRITE, 1, REWRITE.sites[1])
  {
    var s := REWRITE.sites[1];
    NoFallThrough(READER.code);
    Jumps();
    hide CanFallThrough, JumpsTo, Offset;
    assert BodyEnd(s, Some(Temp(2))) == 8;
    assert Adjusted(REWRITE, s, Temp(2), Temp(4));
    assert BodyAt(REWRITE, s, Some(Temp(2)), 0);
    assert Body(REWRITE, s, Some(Temp(2)));
  }

  lemma IsExpansion()
    ensures Expansion(REWRITE)
  {
    FirstSite();
    SecondSite();
    hide SiteAt, JumpsTo;
    var x := REWRITE;
    assert RawAt(x, 2);
    forall k | 0 <= k < 3 ensures CallerInstr(x.orig, x.base, x.orig.code[k]) && if k in x.sites
      then SiteAt(x, k, x.sites[k]) else RawAt(x, k) {}
    assert x.orig.literals <= x.new_.literals by { assert x.new_.literals[..2] == x.orig.literals; }
  }

  /** Both callees answer nil and change nothing, as the world's sends do. */
  lemma WriterDispatches()
    ensures Dispatches(WORLD, Value(11), CLASS, WRITER)
  {
    forall self: Value, args: seq<Value>, h: Heap, v: Value, h': Heap | |args| == 0
      ensures WORLD.send(Value(11), None, self, args, h) == Some((v, h')) <==>
        Answers(WORLD, WRITER, Entry(WORLD, self, args, h), v, false, h')
    {
      var c := Entry(WORLD, self, args, h);
      var d := Step(WORLD, WRITER, c);
      assert d == Running(1, c.frame[2 := TRUE], h);
      assert Step(WORLD, WRITER, d) == Done(NIL, false, h);
      Unroll(WORLD, WRITER, c);
      StepsAdd(WORLD, WRITER, c, 1, 1);
      Unroll(WORLD, WRITER, d);
      AnswersOnly(WORLD, WRITER, c, 2, v, h');
    }
  }

  lemma ReaderDispatches()
    ensures Dispatches(WORLD, Value(12), CLASS, READER)
  {
    forall self: Value, args: seq<Value>, h: Heap, v: Value, h': Heap | |args| == 0
      ensures WORLD.send(Value(12), None, self, args, h) == Some((v, h')) <==>
        Answers(WORLD, READER, Entry(WORLD, self, args, h), v, false, h')
    {
      var c := Entry(WORLD, self, args, h);
      assert Step(WORLD, READER, c) == Done(NIL, false, h);
      Unroll(WORLD, READER, c);
      AnswersOnly(WORLD, READER, c, 1, v, h');
    }
  }

  /** A run has one outcome. */
  lemma AnswersOnly(w: World, m: Method, c: Conf, n: nat, v: Value, h: Heap)
    requires Steps(w, m, c, n).Done?
    ensures Answers(w, m, c, v, false, h) <==> Steps(w, m, c, n) == Done(v, false, h)
  {
    hide Steps;
    if Answers(w, m, c, v, false, h) {
      var k: nat :| Steps(w, m, c, k) == Done(v, false, h);
      Settled(w, m, c, n, k);
    }
  }

  /** The rewriting is an expansion and both sends run their callees, yet the original
      answers nil and the rewriting true. */
  lemma StaleTemporary(self: Value, h: Heap)
    ensures Expansion(REWRITE)
    ensures Dispatches(WORLD, Value(11), CLASS, WRITER) && Dispatches(WORLD, Value(12), CLASS, READER)
    ensures Answers(WORLD, CALLER, Entry(WORLD, self, [], h), NIL, false, h)
    ensures Answers(WORLD, INLINED, Entry(WORLD, self, [], h), TRUE, false, h)
    ensures !Answers(WORLD, INLINED, Entry(WORLD, self, [], h), NIL, false, h)
  {
    IsExpansion();
    WriterDispatches();
    ReaderDispatches();
    hide Expansion, Dispatches;
    CallerRuns(self, h);
    InlinedRuns(self, h);
    AnswersOnly(WORLD, INLINED, Entry(WORLD, self, [], h), 9, NIL, h);
  }

  lemma CallerRuns(self: Value, h: Heap)
    ensures Steps(WORLD, CALLER, Entry(WORLD, self, [], h), 3) == Done(NIL, false, h)
  {
    var c := Entry(WORLD, self, [], h);
    var f := c.frame;
    assert Step(WORLD, CALLER, c) == Running(1, f, h);
    assert Step(WORLD, CALLER, Running(1, f, h)) == Running(2, f[2 := NIL], h);
    assert Step(WORLD, CALLER, Running(2, f[2 := NIL], h)) == Done(NIL, false, h);
    Ahead(WORLD, CALLER, c, 0);
    Ahead(WORLD, CALLER, c, 1);
    Ahead(WORLD, CALLER, c, 2);
  }

  lemma Ahead(w: World, m: Method, c: Conf, n: nat)
    ensures Steps(w, m, c, n).Running? ==> Steps(w, m, c, n + 1) == Step(w, m, Steps(w, m, c, n))
    ensures Steps(w, m, c, 0) == c
  {
    StepsAdd(w, m, c, n, 1);
    Unroll(w, m, Steps(w, m, c, n));
  }

  lemma InlinedRuns(self: Value, h: Heap)
    ensures Steps(WORLD, INLINED, Entry(WORLD, self, [], h), 9) == Done(TRUE, false, h)
  {
    var c := Entry(WORLD, self, [], h);
    var f := c.frame;
    var g := f[3 := self][4 := TRUE];
    FirstHalf(self, h);
    SecondHalf(self, h, g);
    hide Step, Steps;
    StepsAdd(WORLD, INLINED, c, 4, 5);
  }

  lemma FirstHalf(self: Value, h: Heap)
    ensures Steps(WORLD, INLINED, Entry(WORLD, self, [], h), 4) ==
      Running(5, Entry(WORLD, self, [], h).frame[3 := self][4 := TRUE], h)
  {
    Jumps();
    TargetIs(INLINED.code, 3, 5);
    hide JumpsTo, Target, Offset, Steps;
    var c := Entry(WORLD, self, [], h);
    var f := c.frame;
    var g := f[3 := self];
    assert Step(WORLD, INLINED, c) == Running(1, f, h);
    assert Step(WORLD, INLINED, Running(1, f, h)) == Running(2, g, h);
    assert Step(WORLD, INLINED, Running(2, g, h)) == Running(3, g[4 := TRUE], h);
    assert Step(WORLD, INLINED, Running(3, g[4 := TRUE], h)) == Running(5, g[4 := TRUE], h);
    hide Step;
    Ahead(WORLD, INLINED, c, 0);
    Ahead(WORLD, INLINED, c, 1);
    Ahead(WORLD, INLINED, c, 2);
    Ahead(WORLD, INLINED, c, 3);
  }

  lemma SecondHalf(self: Value, h: Heap, g: Frame)
    requires Get(g, 1) == self && Get(g, 4) == TRUE
    ensures Steps(WORLD, INLINED, Running(5, g, h), 5) == Done(TRUE, false, h)
  {
    Jumps();
    TargetIs(INLINED.code, 8, 10);
    hide JumpsTo, Target, Offset, Steps;
    var c := Running(5, g, h);
    var e := g[3 := self];
    assert Step(WORLD, INLINED, c) == Running(6, g, h);
    assert Step(WORLD, INLINED, Running(6, g, h)) == Running(7, e, h);
    assert Step(WORLD, INLINED, Running(7, e, h)) == Running(8, e[2 := TRUE], h);
    assert Step(WORLD, INLINED, Running(8, e[2 := TRUE], h)) == Running(10, e[2 := TRUE], h);
    assert Step(WORLD, INLINED, Running(10, e[2 := TRUE], h)) == Done(TRUE, false, h);
    hide Step;
    Ahead(WORLD, INLINED, c, 0);
    Ahead(WORLD, INLINED, c, 1);
    Ahead(WORLD, INLINED, c, 2);
    Ahead(WORLD, INLINED, c, 3);
    Ahead(WORLD, INLINED, c, 4);
  }
}
