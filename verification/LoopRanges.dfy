/** Exactly when the ranges of vm/jit/RegisterAllocator.c cover the values carried around loops:
    the collector's range [start, gcEnd], by which stack maps select the frame slots to scan,
    and the range [start, end], by which registers are given out. */
module LoopRanges {
  import opened BytecodeMachine
  import opened RegisterScan
  import opened Liveness
  import opened LiveRanges
  import opened PathLiveness

  ghost predicate MentionedBy(code: Code, u: nat, t: nat)
  {
    exists m {:trigger m in Mentions(code, u, |code|)} :: m in Mentions(code, u, |code|) && m <= t
  }

  ghost predicate MentionedFrom(code: Code, u: nat, j: nat)
  {
    exists m {:trigger m in Mentions(code, u, |code|)} :: m in Mentions(code, u, |code|) && j <= m
  }

  /** A mention at j or later, or a loop with a mention that ends at j or later. */
  ghost predicate KeptTo(code: Code, u: nat, j: nat)
  {
    MentionedFrom(code, u, j) || exists k {:trigger k in LoopEnds(code, u, |code|)} ::
      k in LoopEnds(code, u, |code|) && j <= k
  }

  lemma ExactBounds(x: Variable, code: Code, u: nat, n: nat)
    requires Exact(x, code, u) && x.defined
    ensures x.start <= n <==> MentionedBy(code, u, n)
    ensures n <= x.end <==> MentionedFrom(code, u, n)
    ensures n <= x.gcEnd <==> KeptTo(code, u, n)
  {
    hide Mentions, LoopEnds;
    assert x.start in Mentions(code, u, |code|) && x.end in Mentions(code, u, |code|);
  }

  lemma ExactWithin(x: Variable, code: Code, u: nat)
    requires Exact(x, code, u)
    ensures MentionsWithin(code, u, x.start, x.end) && MentionsWithin(code, u, x.start, x.gcEnd)
  {
    hide Mentions, LoopEnds;
  }

  /** A value that is live is one of a variable with a range. */
  lemma {:induction false} LiveDefined(x: Variable, code: Code, u: nat, ps: seq<nat>)
    requires Exact(x, code, u) && ReadPath(code, u, ps)
    ensures x.defined
    decreases |ps|
  {
    hide Mentions, LoopEnds, Writes, NamedAll;
    if |ps| == 1 { ReadMentioned(code, u, ps[0]); } else { LiveDefined(x, code, u, ps[1..]); }
  }

  lemma BackDefined(x: Variable, code: Code, u: nat, j: nat, t: nat)
    requires Exact(x, code, u) && CarriedBack(code, u, j, t)
    ensures x.defined
  {
    hide Exact;
    var ps :| ReadPath(code, u, ps) && ps[0] == t;
    LiveDefined(x, code, u, ps);
  }

  // ----- the collector's range -----

  ghost predicate LoopsKept(code: Code, u: nat)
  {
    forall j: nat, t: nat {:trigger CarriedBack(code, u, j, t)} ::
      CarriedBack(code, u, j, t) ==> MentionedBy(code, u, t) && KeptTo(code, u, j)
  }

  /** [start, gcEnd] covers a temporary wherever it is carried exactly if every backward jump that
      carries it has a mention at or before its target, and at or after the jump a mention or the
      end of a loop with one. */
  lemma CollectorCovers(x: Variable, code: Code, u: nat)
    requires Exact(x, code, u)
    ensures Covers(code, u, x.start, x.gcEnd) <==> LoopsKept(code, u)
  {
    hide Exact, Covers, MentionedBy, KeptTo, CarriedBack, MentionsWithin;
    ExactWithin(x, code, u);
    CarriedWithin(code, u, x.start, x.gcEnd);
    forall j: nat, t: nat | CarriedBack(code, u, j, t)
      ensures (x.start <= t <==> MentionedBy(code, u, t)) && (j <= x.gcEnd <==> KeptTo(code, u, j)) {
      BackDefined(x, code, u, j, t);
      ExactBounds(x, code, u, t);
      ExactBounds(x, code, u, j);
    }
  }

  // ----- loops that do not cross -----

  ghost predicate Cross(code: Code, j: nat, t: nat, k: nat, s: nat)
  {
    Backward(code, j, t) && Backward(code, k, s) && t < s <= j < k
  }

  /** Loops are disjoint or one lies in the other. */
  ghost predicate Nested(code: Code)
  {
    forall j: nat, t: nat, k: nat, s: nat {:trigger Cross(code, j, t, k, s)} :: !Cross(code, j, t, k, s)
  }

  lemma InLoop(code: Code, u: nat, j: nat, t: nat, m: nat)
    requires Backward(code, j, t) && m in Mentions(code, u, |code|) && t <= m
    ensures KeptTo(code, u, j)
  {
    if m <= j {
      assert UsedInLoop(code, u, |code|, j, t);
      assert j in LoopEnds(code, u, |code|);
    }
  }

  lemma {:induction false} NestedKept(code: Code, u: nat, j: nat, t: nat, ps: seq<nat>)
    requires Nested(code) && Backward(code, j, t) && ReadPath(code, u, ps) && t <= ps[0]
    ensures KeptTo(code, u, j)
    decreases |ps|
  {
    hide Reads, Writes, Mentions, LoopEnds;
    var p := ps[0];
    if |ps| == 1 {
      ReadMentioned(code, u, p);
      InLoop(code, u, j, t, if p in Mentions(code, u, |code|) then p else p + 1);
    } else {
      var q := ps[1];
      ForwardOrBack(code, p, q);
      if t <= q {
        NestedKept(code, u, j, t, ps[1..]);
      } else {
        BackwardIs(code, j, t);
        BackwardIs(code, p, q);
        assert !Cross(code, p, q, j, t);
        NestedKept(code, u, p, q, ps[1..]);
      }
    }
  }

  ghost predicate LoopsMentioned(code: Code, u: nat)
  {
    forall j: nat, t: nat {:trigger CarriedBack(code, u, j, t)} ::
      CarriedBack(code, u, j, t) ==> MentionedBy(code, u, t)
  }

  /** Then a mention at or before the loop's target is all it takes. */
  lemma NestedCovers(x: Variable, code: Code, u: nat)
    requires Exact(x, code, u) && Nested(code)
    ensures Covers(code, u, x.start, x.gcEnd) <==> LoopsMentioned(code, u)
  {
    hide Exact, Nested, MentionedBy, KeptTo, Backward, Covers;
    CollectorCovers(x, code, u);
    forall j: nat, t: nat | CarriedBack(code, u, j, t) ensures KeptTo(code, u, j) {
      var ps :| ReadPath(code, u, ps) && ps[0] == t;
      NestedKept(code, u, j, t, ps);
    }
  }

  // ----- temporaries assigned before they are read -----

  ghost predicate WritesOn(code: Code, u: nat, ps: seq<nat>)
  {
    exists k {:trigger ps[k]} :: 0 <= k < |ps| - 1 && ps[k] < |code| && Writes(code[ps[k]], u)
  }

  /** Every path from the entry to a read of u writes it first. */
  ghost predicate AssignedFirst(code: Code, u: nat)
  {
    forall ps {:trigger Route(code, ps)} ::
      Route(code, ps) && ps[|ps| - 1] < |code| && Reads(code[ps[|ps| - 1]], u) ==> WritesOn(code, u, ps)
  }

  ghost predicate Forward(ps: seq<nat>)
  {
    forall k, l {:trigger ps[k], ps[l]} :: 0 <= k < l < |ps| ==> ps[k] < ps[l]
  }

  /** Loops are first entered at their target, from before. */
  ghost predicate EnteredForward(code: Code)
  {
    forall j: nat, t: nat {:trigger Backward(code, j, t)} :: Backward(code, j, t) ==>
      exists ps {:trigger Route(code, ps)} :: Route(code, ps) && Forward(ps) && ps[|ps| - 1] == t
  }

  lemma {:induction false} WrittenBefore(code: Code, u: nat, ps: seq<nat>, qs: seq<nat>)
    requires AssignedFirst(code, u) && Route(code, ps) && ReadPath(code, u, qs) && ps[|ps| - 1] == qs[0]
    ensures WritesOn(code, u, ps)
    decreases |qs|
  {
    hide Reads, Writes;
    if |qs| > 1 {
      var rs := ps + [qs[1]];
      assert rs[..|rs| - 1] == ps;
      WrittenBefore(code, u, rs, qs[1..]);
      var k :| 0 <= k < |rs| - 1 && rs[k] < |code| && Writes(code[rs[k]], u);
      assert ps[k] == rs[k];
    }
  }

  /** So in code with nested loops, entered at their targets, the collector's range covers every
      temporary that is assigned before it is read. */
  lemma AssignedCovers(x: Variable, code: Code, u: nat)
    requires Exact(x, code, u) && Nested(code) && EnteredForward(code) && AssignedFirst(code, u)
    ensures Covers(code, u, x.start, x.gcEnd)
  {
    hide Exact, Nested, Covers, AssignedFirst, Backward, Writes;
    NestedCovers(x, code, u);
    forall j: nat, t: nat | CarriedBack(code, u, j, t) ensures MentionedBy(code, u, t) {
      var qs :| ReadPath(code, u, qs) && qs[0] == t;
      var ps :| Route(code, ps) && Forward(ps) && ps[|ps| - 1] == t;
      WrittenBefore(code, u, ps, qs);
      var k :| 0 <= k < |ps| - 1 && ps[k] < |code| && Writes(code[ps[k]], u);
      WriteMentioned(code, u, ps[k]);
    }
  }

  // ----- the registers' range -----

  ghost predicate LoopsSpanned(code: Code, u: nat)
  {
    forall j: nat, t: nat {:trigger CarriedBack(code, u, j, t)} ::
      CarriedBack(code, u, j, t) ==> MentionedBy(code, u, t) && MentionedFrom(code, u, j)
  }

  /** [start, end] is not widened over loops: it needs a mention on both sides. */
  lemma RegistersCover(x: Variable, code: Code, u: nat)
    requires Exact(x, code, u)
    ensures Covers(code, u, x.start, x.end) <==> LoopsSpanned(code, u)
  {
    hide Exact, Covers, MentionedBy, MentionedFrom, CarriedBack, MentionsWithin;
    ExactWithin(x, code, u);
    CarriedWithin(code, u, x.start, x.end);
    forall j: nat, t: nat | CarriedBack(code, u, j, t)
      ensures (x.start <= t <==> MentionedBy(code, u, t)) && (j <= x.end <==> MentionedFrom(code, u, j)) {
      BackDefined(x, code, u, j, t);
      ExactBounds(x, code, u, t);
      ExactBounds(x, code, u, j);
    }
  }

  /** Two such temporaries carried at the same instruction do not share a register. */
  lemma CarriedApart(vars: seq<Variable>, order: seq<nat>, code: Code, u: nat, v: nat, p: nat)
    requires OrderOk(vars, order) && Sound(vars, order, |order|) && u != v && u in order && v in order
    requires Exact(vars[u], code, u) && Exact(vars[v], code, v) && LoopsSpanned(code, u) && LoopsSpanned(code, v)
    requires Carried(code, u, p) && Carried(code, v, p)
    ensures vars[u].reg == vars[v].reg ==> vars[u].reg == SPILLED
  {
    hide Exact, Carried, LoopsSpanned;
    RegistersCover(vars[u], code, u);
    RegistersCover(vars[v], code, v);
    assert Intersect(vars[u], vars[v]) && Intersect(vars[v], vars[u]);
    hide Covers, Intersect;
    var i :| 0 <= i < |order| && order[i] == u;
    var k :| 0 <= k < |order| && order[k] == v;
  }
}
