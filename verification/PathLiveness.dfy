/** When the ranges of vm/jit/RegisterAllocator.c hold over the paths of the code, and not only
    over its text: a temporary is carried at an instruction if a path from a write of it leads
    there and a path from there to a read of it writes it no more. */
module PathLiveness {
  import opened Options
  import opened BytecodeMachine
  import opened Liveness
  import opened LiveRanges

  // ----- paths -----

  ghost predicate Next(code: Code, p: nat, q: nat)
  {
    p < |code| && ((q == p + 1 && !code[p].Return? && !code[p].OuterReturn? && !code[p].Jump?) || JumpsTo(code, p, q))
  }

  function ReadOperands(i: Instr): seq<Operand>
  {
    match i
    case Copy(source, dest) => if dest.InstVarOf? then [source, dest] else [source]
    case Send(_, receiver, args, store) =>
      [receiver] + args + (if store.Some? && store.value.InstVarOf? then [store.value] else [])
    case Return(op) => [op]
    case OuterReturn(op) => [op]
    case Jump(_) => []
    case JumpNotMemberOf(_, op, _) => [op]
  }

  /** The instruction uses the value of frame slot u. */
  predicate Reads(i: Instr, u: nat)
  {
    u in NamedAll(ReadOperands(i))
  }

  predicate Writes(i: Instr, u: nat)
  {
    match i
    case Copy(_, dest) => dest == Temp(u) || dest == Arg(u)
    case Send(_, _, _, store) => store == Some(Temp(u)) || store == Some(Arg(u))
    case _ => false
  }

  ghost predicate Route(code: Code, ps: seq<nat>)
  {
    ps != [] && if |ps| == 1 then ps[0] == 0
      else Next(code, ps[|ps| - 2], ps[|ps| - 1]) && Route(code, ps[..|ps| - 1])
  }

  ghost predicate Reachable(code: Code, p: nat)
  {
    exists ps {:trigger Route(code, ps)} :: Route(code, ps) && ps[|ps| - 1] == p
  }

  /** From a reachable write of u on, with no other write before the end. */
  ghost predicate WritePath(code: Code, u: nat, ps: seq<nat>)
  {
    |ps| >= 2 && Next(code, ps[|ps| - 2], ps[|ps| - 1]) &&
      if |ps| == 2 then Reachable(code, ps[0]) && Writes(code[ps[0]], u)
      else !Writes(code[ps[|ps| - 2]], u) && WritePath(code, u, ps[..|ps| - 1])
  }

  /** Up to a read of u, with no write before it. */
  ghost predicate ReadPath(code: Code, u: nat, ps: seq<nat>)
  {
    ps != [] && ps[0] < |code| &&
      if |ps| == 1 then Reads(code[ps[0]], u)
      else Next(code, ps[0], ps[1]) && !Writes(code[ps[0]], u) && ReadPath(code, u, ps[1..])
  }

  ghost predicate Written(code: Code, u: nat, p: nat)
  {
    exists ps {:trigger WritePath(code, u, ps)} :: WritePath(code, u, ps) && ps[|ps| - 1] == p
  }

  ghost predicate Live(code: Code, u: nat, p: nat)
  {
    exists ps {:trigger ReadPath(code, u, ps)} :: ReadPath(code, u, ps) && ps[0] == p
  }

  ghost predicate Carried(code: Code, u: nat, p: nat)
  {
    Written(code, u, p) && Live(code, u, p)
  }

  /** The value of u is carried over the backward jump at j to t. */
  ghost predicate CarriedBack(code: Code, u: nat, j: nat, t: nat)
  {
    Backward(code, j, t) && Written(code, u, j) && Live(code, u, t)
  }

  lemma LiveBefore(code: Code, u: nat, p: nat, q: nat)
    requires Next(code, p, q) && !Writes(code[p], u) && Live(code, u, q)
    ensures Live(code, u, p)
  {
    var ps :| ReadPath(code, u, ps) && ps[0] == q;
    assert ([p] + ps)[1..] == ps;
    assert ReadPath(code, u, [p] + ps);
  }

  lemma WrittenAfter(code: Code, u: nat, p: nat, q: nat)
    requires Next(code, p, q) && !Writes(code[p], u) && Written(code, u, p)
    ensures Written(code, u, q)
  {
    var ps :| WritePath(code, u, ps) && ps[|ps| - 1] == p;
    assert (ps + [q])[..|ps|] == ps;
    assert WritePath(code, u, ps + [q]);
  }

  lemma WrittenHere(code: Code, u: nat, p: nat, q: nat)
    requires Next(code, p, q) && Writes(code[p], u) && Reachable(code, p)
    ensures Written(code, u, q)
  {
    assert WritePath(code, u, [p, q]);
  }

  lemma ReadLive(code: Code, u: nat, p: nat)
    requires p < |code| && Reads(code[p], u)
    ensures Live(code, u, p)
  {
    assert ReadPath(code, u, [p]);
  }

  lemma EntryReachable(code: Code)
    ensures Reachable(code, 0)
  {
    assert Route(code, [0]);
  }

  lemma ReachableNext(code: Code, p: nat, q: nat)
    requires Reachable(code, p) && Next(code, p, q)
    ensures Reachable(code, q)
  {
    var ps :| Route(code, ps) && ps[|ps| - 1] == p;
    assert (ps + [q])[..|ps|] == ps;
    assert Route(code, ps + [q]);
  }

  /** A step is forward or a backward jump. */
  lemma ForwardOrBack(code: Code, p: nat, q: nat)
    requires Next(code, p, q)
    ensures p < q || Backward(code, p, q)
  {
    if q <= p && JumpsTo(code, p, q) { OffsetMono(code, q, p + 1); }
  }

  // ----- mentions -----

  lemma NamedIn(ops: seq<Operand>, more: seq<Operand>, u: nat)
    requires u in NamedAll(ops) && forall op {:trigger op in ops} :: op in ops ==> op in more
    ensures u in NamedAll(more)
  {
    var k :| 0 <= k < |ops| && u in Named(ops[k]);
    assert ops[k] in ops && ops[k] in more;
    var l :| 0 <= l < |more| && more[l] == ops[k];
  }

  /** A read is mentioned where it happens, or after the send it belongs to. */
  lemma ReadMentioned(code: Code, u: nat, p: nat)
    requires p < |code| && Reads(code[p], u)
    ensures p in Mentions(code, u, |code|) || (p + 1 in Mentions(code, u, |code|) && code[p].Send?)
  {
    hide NamedAll;
    var i := code[p];
    if i.Send? && i.store.Some? && i.store.value.InstVarOf? {
      var ops := [i.receiver] + i.args;
      assert ReadOperands(i) == ops + [i.store.value] && StoreOf(i) == [i.store.value];
      NamedSplit(ops, i.store.value, u);
    } else {
      NamedIn(ReadOperands(i), Operands(i), u);
    }
  }

  lemma NamedSplit(ops: seq<Operand>, op: Operand, u: nat)
    requires u in NamedAll(ops + [op])
    ensures u in NamedAll(ops) || u in NamedAll([op])
  {
    var k :| 0 <= k < |ops + [op]| && u in Named((ops + [op])[k]);
    if k < |ops| { assert u in Named(ops[k]); } else { assert u in Named([op][0]); }
  }

  lemma WriteMentioned(code: Code, u: nat, p: nat)
    requires p < |code| && Writes(code[p], u)
    ensures p in Mentions(code, u, |code|) || p + 1 in Mentions(code, u, |code|)
    ensures code[p].Copy? || code[p].Send?
  {
    var i := code[p];
    if i.Copy? {
      assert Operands(i)[1] == i.dest && u in Named(i.dest);
    } else {
      assert StoreOf(i)[0] == i.store.value && u in Named(i.store.value);
    }
  }

  // ----- ranges and carried values -----

  /** Everything between lo and hi, mentions included. */
  ghost predicate Covers(code: Code, u: nat, lo: nat, hi: nat)
  {
    forall p: nat {:trigger Carried(code, u, p)} :: Carried(code, u, p) ==> lo <= p <= hi
  }

  ghost predicate BackCovered(code: Code, u: nat, lo: nat, hi: nat)
  {
    forall j: nat, t: nat {:trigger CarriedBack(code, u, j, t)} :: CarriedBack(code, u, j, t) ==> lo <= t && j <= hi
  }

  ghost predicate MentionsWithin(code: Code, u: nat, lo: nat, hi: nat)
  {
    forall m {:trigger m in Mentions(code, u, |code|)} :: m in Mentions(code, u, |code|) ==> lo <= m <= hi
  }

  lemma {:induction false} StartsBefore(code: Code, u: nat, lo: nat, hi: nat, ps: seq<nat>)
    requires MentionsWithin(code, u, lo, hi) && BackCovered(code, u, lo, hi)
    requires WritePath(code, u, ps) && Live(code, u, ps[|ps| - 1])
    ensures lo <= ps[|ps| - 1]
    decreases |ps|
  {
    hide Live, Writes, NamedAll, Mentions;
    var p, q := ps[|ps| - 2], ps[|ps| - 1];
    if |ps| == 2 {
      WriteMentioned(code, u, p);
    } else {
      LiveBefore(code, u, p, q);
      StartsBefore(code, u, lo, hi, ps[..|ps| - 1]);
      ForwardOrBack(code, p, q);
      if Backward(code, p, q) {
        assert Written(code, u, p) by { assert WritePath(code, u, ps[..|ps| - 1]); }
        assert CarriedBack(code, u, p, q);
      }
    }
  }

  lemma {:induction false} EndsAfter(code: Code, u: nat, lo: nat, hi: nat, ps: seq<nat>)
    requires MentionsWithin(code, u, lo, hi) && BackCovered(code, u, lo, hi)
    requires ReadPath(code, u, ps) && Written(code, u, ps[0])
    ensures ps[0] <= hi
    decreases |ps|
  {
    hide Written, Writes, NamedAll, Mentions;
    var p := ps[0];
    if |ps| == 1 {
      ReadMentioned(code, u, p);
    } else {
      var q := ps[1];
      WrittenAfter(code, u, p, q);
      EndsAfter(code, u, lo, hi, ps[1..]);
      ForwardOrBack(code, p, q);
      if Backward(code, p, q) {
        assert Live(code, u, q) by { assert ReadPath(code, u, ps[1..]); }
        assert CarriedBack(code, u, p, q);
      }
    }
  }

  /** A range over all mentions covers every carried value exactly if it covers the backward
      jumps over which one is carried. */
  lemma CarriedWithin(code: Code, u: nat, lo: nat, hi: nat)
    requires MentionsWithin(code, u, lo, hi)
    ensures Covers(code, u, lo, hi) <==> BackCovered(code, u, lo, hi)
  {
    if BackCovered(code, u, lo, hi) {
      forall p: nat | Carried(code, u, p) ensures lo <= p <= hi {
        var ps :| WritePath(code, u, ps) && ps[|ps| - 1] == p;
        StartsBefore(code, u, lo, hi, ps);
        var qs :| ReadPath(code, u, qs) && qs[0] == p;
        EndsAfter(code, u, lo, hi, qs);
      }
    }
    if Covers(code, u, lo, hi) {
      forall j: nat, t: nat | CarriedBack(code, u, j, t) ensures lo <= t && j <= hi {
        LiveBefore(code, u, j, t);
        WrittenAfter(code, u, j, t);
        assert Carried(code, u, j) && Carried(code, u, t);
      }
    }
  }
}
