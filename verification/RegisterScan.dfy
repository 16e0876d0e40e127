/** The linear scan of the register allocator (vm/jit/RegisterAllocator.c): variables in order
    of definition, a list of those that hold registers, and a pool of free registers kept as a
    buffer with a cursor. The list is not kept sorted by end beyond its first entry. */
module RegisterScan {

  const SPILLED: int := -1

  datatype Variable = Variable(defined: bool, reg: int, start: nat, end: nat, gcEnd: nat)

  /** [start, end] ranges that share a bytecode number. */
  predicate Intersect(a: Variable, b: Variable)
  {
    a.start <= b.end && b.start <= a.end
  }

  ghost predicate Distinct<T>(s: seq<T>)
  {
    forall i, j {:trigger s[i], s[j]} :: 0 <= i < j < |s| ==> s[i] != s[j]
  }

  /** What scanning starts from: variables by order of first use, none with a register. */
  ghost predicate OrderOk(vars: seq<Variable>, order: seq<nat>)
  {
    && Distinct(order) && (forall i {:trigger order[i]} ::
      0 <= i < |order| ==> order[i] < |vars| && vars[order[i]].start <= vars[order[i]].end)
    && (forall i, j {:trigger order[i], order[j]} ::
      0 <= i < j < |order| ==> vars[order[i]].start <= vars[order[j]].start)
  }

  ghost predicate RegsOk(regs: seq<int>, ctx: int)
  {
    |regs| <= 256 && Distinct(regs) && ctx !in regs && SPILLED !in regs && ctx != SPILLED
  }

  /** The same variables up to their registers. */
  ghost predicate SameRanges(vars: seq<Variable>, vars': seq<Variable>)
  {
    |vars'| == |vars| && forall i {:trigger vars'[i]} {:trigger vars[i]} ::
      0 <= i < |vars| ==> vars'[i] == vars[i].(reg := vars'[i].reg)
  }

  /** Variables that are live together do not share a register. */
  ghost predicate Sound(vars: seq<Variable>, order: seq<nat>, n: nat)
    requires OrderOk(vars, order) && n <= |order|
  {
    forall i, j {:trigger order[i], order[j]} ::
      0 <= i < j < n && vars[order[i]].reg != SPILLED && Intersect(vars[order[i]], vars[order[j]]) ==>
      vars[order[i]].reg != vars[order[j]].reg
  }

  /** The variables us are all live at the bytecode at. */
  ghost predicate Crowd(vars: seq<Variable>, order: seq<nat>, context: nat, us: seq<nat>, at: nat)
  {
    Distinct(us) && forall k {:trigger us[k]} ::
      0 <= k < |us| ==>
      us[k] in order && us[k] != context && us[k] < |vars| &&
      vars[us[k]].start <= at <= vars[us[k]].end
  }

  /** Somewhere more than size variables are live at once. */
  ghost predicate Crowded(vars: seq<Variable>, order: seq<nat>, context: nat, size: nat)
  {
    exists us, at {:trigger Crowd(vars, order, context, us, at)} :: Crowd(vars, order, context, us, at) && |us| > size
  }

  ghost predicate NoneSpilled(vars: seq<Variable>, order: seq<nat>, n: nat)
    requires n <= |order| && OrderOk(vars, order)
  {
    forall i {:trigger order[i]} :: 0 <= i < n ==> vars[order[i]].reg != SPILLED
  }

  /** Variable v is live together with more others than there are registers for, and one of
      them, which ends no later, was preferred. */
  ghost predicate Displaced(vars: seq<Variable>, order: seq<nat>, context: nat, size: nat, v: nat)
  {
    exists us, at {:trigger Crowd(vars, order, context, us, at)} ::
      Crowd(vars, order, context, us, at) && |us| > size && v in us && Preferred(vars, us, size, v)
  }

  ghost predicate Preferred(vars: seq<Variable>, us: seq<nat>, size: nat, v: nat)
  {
    size > 0 ==> exists u {:trigger u in us} ::
      u in us && u != v && u < |vars| && v < |vars| && vars[u].end <= vars[v].end
  }

  /** Each of the first n variables that has no register was displaced. */
  ghost predicate SpilledRightly(vars: seq<Variable>, order: seq<nat>, n: nat, context: nat, size: nat)
    requires n <= |order| && OrderOk(vars, order)
  {
    forall i {:trigger order[i]} ::
      0 <= i < n && order[i] != context && vars[order[i]].reg == SPILLED ==>
      Displaced(vars, order, context, size, order[i])
  }

  lemma DisplacedSame(vars: seq<Variable>, vars': seq<Variable>, order: seq<nat>, context: nat, size: nat, v: nat)
    requires Displaced(vars, order, context, size, v) && SameRanges(vars, vars')
    ensures Displaced(vars', order, context, size, v)
  {
    var us, at :| Crowd(vars, order, context, us, at) && |us| > size && v in us && Preferred(vars, us, size, v);
    assert Crowd(vars', order, context, us, at) && Preferred(vars', us, size, v);
  }

  /** So if the pool is never too small, nothing is spilled. */
  lemma SpilledOnlyCrowded(vars: seq<Variable>, order: seq<nat>, context: nat, size: nat)
    requires OrderOk(vars, order) && SpilledRightly(vars, order, |order|, context, size)
    requires context < |vars| && vars[context].reg != SPILLED
    ensures NoneSpilled(vars, order, |order|) || Crowded(vars, order, context, size)
  {
    hide Crowd;
    if i :| 0 <= i < |order| && vars[order[i]].reg == SPILLED {
      assert Displaced(vars, order, context, size, order[i]);
    }
  }

  /** The state of the scan: the list of variables with registers and the free registers. */
  datatype Scan = Scan(active: seq<nat>, free: seq<int>)

  /** The registers are split between the free ones and the list's. */
  ghost predicate PoolOk(vars: seq<Variable>, regs: seq<int>, s: Scan)
  {
    && Distinct(s.active) && Distinct(s.free) && |s.active| + |s.free| == |regs|
    && (forall i {:trigger s.active[i]} ::
      0 <= i < |s.active| ==> s.active[i] < |vars| && vars[s.active[i]].reg in regs && vars[s.active[i]].reg !in s.free)
    && (forall i, j {:trigger s.active[i], s.active[j]} ::
      0 <= i < j < |s.active| ==> vars[s.active[i]].reg != vars[s.active[j]].reg)
    && (forall r {:trigger r in s.free} :: r in s.free ==> r in regs)
  }

  /** Each scanned variable is the context, in the list, spilled, or over before now. */
  ghost predicate Placed(vars: seq<Variable>, u: nat, context: nat, regs: seq<int>, ctx: int, s: Scan, now: nat)
    requires u < |vars|
  {
    if u == context then vars[u].reg == ctx
      else u in s.active || vars[u].reg == SPILLED || (vars[u].end < now && vars[u].reg in regs)
  }

  ghost predicate Scanned(vars: seq<Variable>, order: seq<nat>, n: nat, context: nat, regs: seq<int>, ctx: int, s: Scan,
      now: nat)
  {
    && OrderOk(vars, order) && n <= |order| && RegsOk(regs, ctx) && context < |vars| && vars[context].reg == ctx
    && PoolOk(vars, regs, s) && Sound(vars, order, n)
    && (forall i {:trigger order[i]} :: 0 <= i < n ==> Placed(vars, order[i], context, regs, ctx, s, now))
    && (forall u {:trigger u in s.active} :: u in s.active ==> u in order[..n] && u != context)
    && (forall i {:trigger order[i]} ::
      n <= i < |order| ==> now <= vars[order[i]].start && (order[i] != context ==> vars[order[i]].reg == SPILLED))
  }

  /** A variable that leaves the list gives its register back. */
  ghost function Retired(vars: seq<Variable>, s: Scan, i: nat): Scan
    requires i < |s.active| && s.active[i] < |vars|
  {
    Scan(s.active[..i] + s.active[i + 1..], [vars[s.active[i]].reg] + s.free)
  }

  lemma RetiredPool(vars: seq<Variable>, regs: seq<int>, s: Scan, i: nat)
    requires PoolOk(vars, regs, s) && i < |s.active|
    ensures PoolOk(vars, regs, Retired(vars, s, i))
  {
    var t := Retired(vars, s, i);
    var reg := vars[s.active[i]].reg;
    forall k | 0 <= k < |t.active|
      ensures t.active[k] < |vars| && vars[t.active[k]].reg in regs && vars[t.active[k]].reg !in t.free {
      var m := if k < i then k else k + 1;
      assert t.active[k] == s.active[m];
      assert vars[s.active[m]].reg != reg;
    }
    forall k, l | 0 <= k < l < |t.active|
      ensures vars[t.active[k]].reg != vars[t.active[l]].reg && t.active[k] != t.active[l] {
      assert t.active[k] == s.active[if k < i then k else k + 1] && t.active[l] == s.active[if l < i then l else l + 1];
    }
  }

  lemma RetiredScanned(vars: seq<Variable>, order: seq<nat>, n: nat, context: nat, regs: seq<int>, ctx: int, s: Scan,
      now: nat, i: nat)
    requires Scanned(vars, order, n, context, regs, ctx, s, now) && i < |s.active| && vars[s.active[i]].end < now
    ensures Scanned(vars, order, n, context, regs, ctx, Retired(vars, s, i), now)
  {
    hide Sound;
    var t := Retired(vars, s, i);
    RetiredPool(vars, regs, s, i);
    forall k | 0 <= k < n ensures order[k] < |vars| && Placed(vars, order[k], context, regs, ctx, t, now) {
      assert Placed(vars, order[k], context, regs, ctx, s, now);
      if order[k] in s.active && order[k] != s.active[i] {
        var m :| 0 <= m < |s.active| && s.active[m] == order[k];
        assert t.active[if m < i then m else m - 1] == order[k];
      }
    }
    forall u | u in t.active ensures u in order[..n] && u != context { assert u in s.active; }
  }

  /** Time moves on to the start of the next variable. */
  lemma AgedScanned(vars: seq<Variable>, order: seq<nat>, n: nat, context: nat, regs: seq<int>, ctx: int, s: Scan,
      now: nat)
    requires Scanned(vars, order, n, context, regs, ctx, s, now) && n < |order|
    ensures Scanned(vars, order, n, context, regs, ctx, s, vars[order[n]].start)
  {
    hide PoolOk, Sound;
    forall i | n <= i < |order| ensures vars[order[n]].start <= vars[order[i]].start { var _ := order[n]; }
    forall k | 0 <= k < n ensures Placed(vars, order[k], context, regs, ctx, s, vars[order[n]].start)
      { assert Placed(vars, order[k], context, regs, ctx, s, now); var _ := order[n]; }
  }

  /** The list's registers are not those of scanned variables that may overlap the next one. */
  lemma Clash(vars: seq<Variable>, order: seq<nat>, n: nat, context: nat, regs: seq<int>, ctx: int, s: Scan, i: nat,
      reg: int)
    requires n < |order| && i < n && OrderOk(vars, order) &&
      Scanned(vars, order, n, context, regs, ctx, s, vars[order[n]].start)
    requires reg in regs && (forall u {:trigger u in s.active} :: u in s.active && u < |vars| ==> vars[u].reg != reg)
    ensures vars[order[i]].reg != SPILLED && Intersect(vars[order[i]], vars[order[n]]) ==> vars[order[i]].reg != reg
  {
    hide PoolOk, Sound;
    assert Placed(vars, order[i], context, regs, ctx, s, vars[order[n]].start);
  }

  /** A free register for the next variable. */
  lemma TakenScanned(vars: seq<Variable>, order: seq<nat>, n: nat, context: nat, regs: seq<int>, ctx: int, s: Scan,
      active: seq<nat>)
    requires n < |order| && OrderOk(vars, order) && Scanned(vars, order, n, context, regs, ctx, s, vars[order[n]].start)
    requires order[n] != context && s.free != [] && (active == [order[n]] + s.active || active == s.active + [order[n]])
    ensures Scanned(vars[order[n] := vars[order[n]].(reg := s.free[0])], order, n + 1, context, regs, ctx,
      Scan(active, s.free[1..]), vars[order[n]].start)
  {
    var v := order[n];
    var reg := s.free[0];
    var vars' := vars[v := vars[v].(reg := reg)];
    var now := vars[v].start;
    var t := Scan(active, s.free[1..]);
    assert reg in s.free;
    NotListed(vars, order, n, context, regs, ctx, s, now);
    TakenPool(vars, regs, s, v, active);
    assert Sound(vars', order, n + 1) by {
      hide PoolOk, Placed;
      forall i, j | 0 <= i < j < n + 1 && vars'[order[i]].reg != SPILLED && Intersect(vars'[order[i]], vars'[order[j]])
        ensures vars'[order[i]].reg != vars'[order[j]].reg {
        assert order[i] != v;
        if j == n {
          FreeReg(vars, regs, s, reg);
          Clash(vars, order, n, context, regs, ctx, s, i, reg);
        } else {
          assert order[j] != v;
        }
      }
    }
    hide PoolOk, Sound;
    forall k | 0 <= k < n + 1 ensures Placed(vars', order[k], context, regs, ctx, t, now) {
      if k < n { assert Placed(vars, order[k], context, regs, ctx, s, now) && order[k] != v; }
    }
    forall u | u in t.active ensures u in order[..n + 1] && u != context
      { if u != v { assert u in s.active; } else { assert order[..n + 1][n] == v; } }
  }

  lemma FreeReg(vars: seq<Variable>, regs: seq<int>, s: Scan, reg: int)
    requires PoolOk(vars, regs, s) && reg in s.free
    ensures reg in regs && forall u {:trigger u in s.active} :: u in s.active && u < |vars| ==> vars[u].reg != reg
  {
  }

  lemma NotListed(vars: seq<Variable>, order: seq<nat>, n: nat, context: nat, regs: seq<int>, ctx: int, s: Scan,
      now: nat)
    requires n < |order| && Scanned(vars, order, n, context, regs, ctx, s, now)
    ensures order[n] !in s.active && order[n] < |vars| && OrderOk(vars, order)
  {
    hide PoolOk, Sound;
    assert order[n] !in order[..n];
  }

  lemma TakenPool(vars: seq<Variable>, regs: seq<int>, s: Scan, v: nat, active: seq<nat>)
    requires PoolOk(vars, regs, s) && s.free != [] && v < |vars| && v !in s.active &&
      (active == [v] + s.active || active == s.active + [v])
    ensures PoolOk(vars[v := vars[v].(reg := s.free[0])], regs, Scan(active, s.free[1..]))
  {
    var reg := s.free[0];
    var vars' := vars[v := vars[v].(reg := reg)];
    var d := if active == [v] + s.active then 1 else 0;
    var free := s.free[1..];
    assert reg in s.free && reg !in free;
    forall r | r in free ensures r in s.free {}
    forall k | 0 <= k < |active| ensures active[k] < |vars| && vars'[active[k]].reg in regs &&
      vars'[active[k]].reg !in free {
      if active[k] != v { assert active[k] == s.active[k - d]; }
    }
    forall k, l | 0 <= k < l < |active| ensures active[k] != active[l] && vars'[active[k]].reg != vars'[active[l]].reg {
      if active[k] != v { assert active[k] == s.active[k - d]; }
      if active[l] != v { assert active[l] == s.active[l - d]; }
    }
  }

  /** The context keeps its dedicated register and takes no part. */
  lemma ContextScanned(vars: seq<Variable>, order: seq<nat>, n: nat, context: nat, regs: seq<int>, ctx: int, s: Scan,
      now: nat)
    requires n < |order| && Scanned(vars, order, n, context, regs, ctx, s, now) && order[n] == context
    ensures Scanned(vars, order, n + 1, context, regs, ctx, s, now)
  {
    assert Sound(vars, order, n + 1) by {
      forall i, j | 0 <= i < j < n + 1 && vars[order[i]].reg != SPILLED && Intersect(vars[order[i]], vars[order[j]])
        ensures vars[order[i]].reg != vars[order[j]].reg {
        if j == n {
          assert Placed(vars, order[i], context, regs, ctx, s, now) && order[i] != context;
          if order[i] in s.active { ListedReg(vars, regs, s, order[i]); }
        }
      }
    }
    hide PoolOk, Sound;
    forall u | u in s.active ensures u in order[..n + 1] { assert u in order[..n]; }
  }

  lemma ListedReg(vars: seq<Variable>, regs: seq<int>, s: Scan, u: nat)
    requires PoolOk(vars, regs, s) && u in s.active
    ensures u < |vars| && vars[u].reg in regs
  {
  }

  /** No register: the new variable itself is spilled. */
  lemma SpilledScanned(vars: seq<Variable>, order: seq<nat>, n: nat, context: nat, regs: seq<int>, ctx: int, s: Scan,
      now: nat)
    requires n < |order| && Scanned(vars, order, n, context, regs, ctx, s, now) && order[n] != context
    ensures Scanned(vars, order, n + 1, context, regs, ctx, s, now) && vars[order[n]].reg == SPILLED
  {
    hide PoolOk;
    assert Sound(vars, order, n + 1);
    hide Sound;
    forall u | u in s.active ensures u in order[..n + 1] { assert u in order[..n]; }
  }

  lemma EvictedSound(vars: seq<Variable>, order: seq<nat>, n: nat, context: nat, regs: seq<int>, ctx: int, s: Scan)
    requires n < |order| && OrderOk(vars, order) && Scanned(vars, order, n, context, regs, ctx, s, vars[order[n]].start)
    requires order[n] != context && s.active != [] && s.active[0] < |vars| && s.active[0] != order[n]
    ensures var vars' := vars[order[n] := vars[order[n]].(reg := vars[s.active[0]].reg)][s.active[0] :=
      vars[s.active[0]].(reg := SPILLED)];
      OrderOk(vars', order) && Sound(vars', order, n + 1)
  {
    var x, v := s.active[0], order[n];
    assert x in s.active;
    var now, reg := vars[v].start, vars[x].reg;
    var vars' := vars[v := vars[v].(reg := reg)][x := vars[x].(reg := SPILLED)];
    ListedReg(vars, regs, s, x);
    forall i | 0 <= i < n && vars'[order[i]].reg != SPILLED && Intersect(vars'[order[i]], vars'[v])
      ensures vars'[order[i]].reg != reg {
      assert order[i] != v && order[i] != x;
      assert Placed(vars, order[i], context, regs, ctx, s, now);
      if order[i] in s.active { SameReg(vars, regs, s, order[i]); }
    }
    hide PoolOk, Placed;
    forall i, j | 0 <= i < j < n + 1 && vars'[order[i]].reg != SPILLED && Intersect(vars'[order[i]], vars'[order[j]])
      ensures vars'[order[i]].reg != vars'[order[j]].reg {
      if j < n { assert order[i] != v && order[j] != v && order[i] != x; }
    }
  }

  /** Or the first of the list is, and the new variable gets its register. */
  lemma EvictedScanned(vars: seq<Variable>, order: seq<nat>, n: nat, context: nat, regs: seq<int>, ctx: int, s: Scan)
    requires n < |order| && OrderOk(vars, order) && Scanned(vars, order, n, context, regs, ctx, s, vars[order[n]].start)
    requires order[n] != context && s.active != [] && s.active[0] < |vars|
    ensures s.active[0] != order[n]
    ensures var x, v := s.active[0], order[n];
      Scanned(vars[v := vars[v].(reg := vars[x].reg)][x := vars[x].(reg := SPILLED)], order, n + 1, context, regs, ctx,
        Scan(s.active[1..] + [v], s.free), vars[v].start)
  {
    NotListed(vars, order, n, context, regs, ctx, s, vars[order[n]].start);
    var x, v := s.active[0], order[n];
    assert x in s.active;
    var now, reg := vars[v].start, vars[x].reg;
    var vars' := vars[v := vars[v].(reg := reg)][x := vars[x].(reg := SPILLED)];
    var t := Scan(s.active[1..] + [v], s.free);
    EvictedPool(vars, regs, s, v);
    EvictedSound(vars, order, n, context, regs, ctx, s);
    hide PoolOk, Sound;
    forall k | 0 <= k < n + 1 ensures Placed(vars', order[k], context, regs, ctx, t, now) {
      if k < n {
        assert Placed(vars, order[k], context, regs, ctx, s, now) && order[k] != v;
        if order[k] in s.active && order[k] != x {
          var m :| 0 <= m < |s.active| && s.active[m] == order[k];
          assert t.active[m - 1] == order[k];
        }
      } else {
        assert t.active[|s.active| - 1] == v;
      }
    }
    forall u | u in t.active ensures u in order[..n + 1] && u != context
      { if u != v { assert u in s.active; } else { assert order[..n + 1][n] == v; } }
  }

  lemma SameReg(vars: seq<Variable>, regs: seq<int>, s: Scan, u: nat)
    requires PoolOk(vars, regs, s) && u in s.active && s.active[0] < |vars| && u < |vars|
    ensures vars[u].reg == vars[s.active[0]].reg ==> u == s.active[0]
  {
  }

  lemma EvictedPool(vars: seq<Variable>, regs: seq<int>, s: Scan, v: nat)
    requires PoolOk(vars, regs, s) && s.active != [] && v < |vars| && v !in s.active && s.active[0] < |vars|
    ensures var x := s.active[0];
      PoolOk(vars[v := vars[v].(reg := vars[x].reg)][x := vars[x].(reg := SPILLED)], regs,
        Scan(s.active[1..] + [v], s.free))
  {
    var x := s.active[0];
    var vars' := vars[v := vars[v].(reg := vars[x].reg)][x := vars[x].(reg := SPILLED)];
    var active := s.active[1..] + [v];
    forall k | 0 <= k < |active| ensures active[k] < |vars| && vars'[active[k]].reg in regs &&
      vars'[active[k]].reg !in s.free {
      if active[k] != v { assert active[k] == s.active[k + 1]; }
    }
    forall k, l | 0 <= k < l < |active| ensures active[k] != active[l] && vars'[active[k]].reg != vars'[active[l]].reg {
      assert active[k] == s.active[k + 1];
      if active[l] != v { assert active[l] == s.active[l + 1]; }
    }
  }

  class Scanner {
    const vars: array<Variable>
    const pool: array<int>
    var active: seq<nat>
    var tmp: nat
    var end: nat

    ghost predicate Cursors()
      reads this
    {
      tmp <= end <= pool.Length
    }

    ghost function Now(): Scan
      requires Cursors()
      reads this, pool
    {
      Scan(active, pool[tmp..end])
    }

    /** initSortedVars and initRegsPool. */
    constructor (vars: array<Variable>, regs: seq<int>)
      requires |regs| <= 256
      ensures this.vars == vars && fresh(pool) && Cursors() && tmp == 0 && end == |regs| && Now() == Scan([], regs)
    {
      this.vars := vars;
      pool := new int[512](i => if 0 <= i < |regs| then regs[i] else 0);
      active, tmp, end := [], 0, |regs|;
      new;
      assert pool[0..|regs|] == regs;
    }

    /** nextReg. */
    method NextReg() returns (r: int)
      requires Cursors()
      modifies this`tmp
      ensures Cursors() && active == old(active)
      ensures if old(Now().free) == [] then r == SPILLED && Now() == old(Now())
        else r == old(Now().free[0]) && Now().free == old(Now().free[1..])
    {
      if tmp < end {
        r := pool[tmp];
        tmp := tmp + 1;
      } else {
        r := SPILLED;
      }
    }

    /** reuseVarReg and removeVar of the i-th of the list: the cursor never leaves the buffer,
        because the list holds exactly the registers taken. */
    method Retire(i: nat, ghost regs: seq<int>)
      requires Cursors() && PoolOk(vars[..], regs, Now()) && end == |regs| && i < |active| && SPILLED !in regs
      modifies this`active, this`tmp, pool
      ensures Cursors() && Now() == Retired(vars[..], old(Now()), i) && vars[..] == old(vars[..])
    {
      var var_ := vars[active[i]];
      if var_.reg != SPILLED {
        tmp := tmp - 1;
        pool[tmp] := var_.reg;
      }
      active := active[..i] + active[i + 1..];
    }

    /** removeDeadVars. */
    method RemoveDead(order: seq<nat>, n: nat, ghost context: nat, ghost regs: seq<int>, ghost ctx: int)
      requires Cursors() && end == |regs| && n < |order| && OrderOk(vars[..], order) &&
        Scanned(vars[..], order, n, context, regs, ctx, Now(), vars[order[n]].start)
      modifies this`active, this`tmp, pool
      ensures Cursors() && vars[..] == old(vars[..]) &&
        Scanned(vars[..], order, n, context, regs, ctx, Now(), vars[order[n]].start)
      ensures forall i {:trigger active[i]} ::
        0 <= i < |active| ==> active[i] < vars.Length && vars[active[i]].end >= vars[order[n]].start
    {
      var offset := vars[order[n]].start;
      var i := 0;
      while i < |active|
        invariant 0 <= i <= |active| && Cursors() && vars[..] == old(vars[..]) &&
          Scanned(vars[..], order, n, context, regs, ctx, Now(), offset)
        invariant forall k {:trigger active[k]} ::
          0 <= k < i ==> active[k] < vars.Length && vars[active[k]].end >= offset
        decreases |active| - i
      {
        hide Scanned, Retired;
        ghost var s := Now();
        Parts(vars[..], order, n, context, regs, ctx, s, offset);
        ListedReg(vars[..], regs, s, active[i]);
        if vars[active[i]].end < offset {
          RetiredScanned(vars[..], order, n, context, regs, ctx, s, offset, i);
          Retire(i, regs);
          RetiredList(vars[..], s, i);
        } else {
          i := i + 1;
        }
      }
    }

    /** One variable gets a free register, or the first entry of the list loses its own; then
        the list and the variable are more than there are registers, all live now. */
    method Assign(order: seq<nat>, n: nat, ghost context: nat, ghost regs: seq<int>, ghost ctx: int)
      requires Cursors() && end == |regs| && n < |order| && OrderOk(vars[..], order) &&
        Scanned(vars[..], order, n, context, regs, ctx, Now(), vars[order[n]].start)
      requires order[n] != context && vars[order[n]].reg == SPILLED
      requires forall i {:trigger active[i]} ::
        0 <= i < |active| ==> active[i] < vars.Length && vars[active[i]].end >= vars[order[n]].start
      requires SpilledRightly(vars[..], order, n, context, |regs|)
      modifies this`active, this`tmp, vars
      ensures OrderOk(vars[..], order) && SpilledRightly(vars[..], order, n + 1, context, |regs|)
      ensures Cursors() && SameRanges(old(vars[..]), vars[..]) &&
        Scanned(vars[..], order, n + 1, context, regs, ctx, Now(), old(vars[order[n]].start))
    {
      hide Scanned, Displaced, SpilledRightly, OneSpilled, Distinct, RegsOk;
      ghost var before, s := vars[..], Now();
      var v := order[n];
      Parts(vars[..], order, n, context, regs, ctx, s, vars[v].start);
      NotListed(vars[..], order, n, context, regs, ctx, s, vars[v].start);
      if active != [] { ListedReg(vars[..], regs, s, active[0]); }
      hide PoolOk, OrderOk;
      if active == [] || vars[v].end >= vars[active[0]].end {
        active := [v] + active;
      } else {
        active := active + [v];
      }
      var reg := NextReg();
      vars[v] := vars[v].(reg := reg);
      if reg == SPILLED {
        if s.free != [] { FreeReg(before, regs, s, s.free[0]); }
        assert vars[..] == before;
        ghost var spilled := active[0];
        Overfull(before, order, n, context, regs, ctx, s, spilled);
        Spill(order, n, context, regs, ctx, s);
        SpillEnds(before, vars[..], order, n, context, regs, ctx, Now(), spilled);
      } else {
        assert vars[..] == before[v := before[v].(reg := reg)];
        TakenEnds(before, order, n, context, regs, ctx, s, active);
      }
    }

    /** The pool is empty: the first entry of the list, perhaps the new variable itself, loses. */
    method Spill(order: seq<nat>, n: nat, ghost context: nat, ghost regs: seq<int>, ghost ctx: int, ghost s: Scan)
      requires Cursors() && n < |order| && OrderOk(vars[..], order) &&
        Scanned(vars[..], order, n, context, regs, ctx, s, vars[order[n]].start)
      requires order[n] != context && vars[order[n]].reg == SPILLED && Now().free == s.free
      requires active == [order[n]] + s.active || (s.active != [] && active == s.active + [order[n]])
      modifies this`active, vars
      ensures Cursors() && SameRanges(old(vars[..]), vars[..]) &&
        Scanned(vars[..], order, n + 1, context, regs, ctx, Now(), old(vars[order[n]].start))
      ensures OneSpilled(old(vars[..]), vars[..], order[n], old(active[0]))
    {
      hide Scanned;
      ghost var before := vars[..];
      var v := order[n];
      Parts(before, order, n, context, regs, ctx, s, before[v].start);
      NotListed(before, order, n, context, regs, ctx, s, before[v].start);
      if s.active != [] { ListedReg(before, regs, s, s.active[0]); }
      hide PoolOk, OrderOk;
      var spilled := active[0];
      active := active[1..];
      if spilled == v {
        assert active == s.active;
        SpilledScanned(before, order, n, context, regs, ctx, s, before[v].start);
      } else {
        assert active == s.active[1..] + [v];
        EvictedScanned(before, order, n, context, regs, ctx, s);
      }
      vars[v] := vars[v].(reg := vars[spilled].reg);
      vars[spilled] := vars[spilled].(reg := SPILLED);
      assert spilled == v ==> vars[..] == before;
      assert spilled != v ==>
        vars[..] ==
        before[v := before[v].(reg := before[spilled].reg)][spilled := before[spilled].(reg := SPILLED)];
    }
  }

  /** Only v has got a register, and only x has lost its own, or has none still. */
  ghost predicate OneSpilled(vars: seq<Variable>, vars': seq<Variable>, v: nat, x: nat)
  {
    && |vars'| == |vars| && x < |vars'| && vars'[x].reg == SPILLED && v < |vars'|
    && (vars'[v].reg == SPILLED ==> x == v)
    && forall u {:trigger vars'[u]} :: 0 <= u < |vars| && u != v && u != x ==> vars'[u].reg == vars[u].reg
  }

  /** Without a free register the list and the new variable are too many, and the one to be
      spilled, at the front, ends no earlier than another. */
  lemma Overfull(vars: seq<Variable>, order: seq<nat>, n: nat, context: nat, regs: seq<int>, ctx: int, s: Scan, x: nat)
    requires n < |order| && OrderOk(vars, order) &&
      Scanned(vars, order, n, context, regs, ctx, s, vars[order[n]].start) && order[n] != context && s.free == []
    requires forall i {:trigger s.active[i]} ::
      0 <= i < |s.active| ==> s.active[i] < |vars| && vars[s.active[i]].end >= vars[order[n]].start
    requires x == if s.active == [] || vars[order[n]].end >= vars[s.active[0]].end then order[n] else s.active[0]
    ensures Displaced(vars, order, context, |regs|, x)
  {
    hide Sound, Placed;
    NotListed(vars, order, n, context, regs, ctx, s, vars[order[n]].start);
    var us, at := s.active + [order[n]], vars[order[n]].start;
    forall k | 0 <= k < |us| ensures us[k] in order && us[k] != context && us[k] < |vars| &&
      vars[us[k]].start <= at <= vars[us[k]].end {
      if k < |s.active| {
        assert us[k] == s.active[k] && s.active[k] in s.active;
        var m :| 0 <= m < n && order[..n][m] == us[k];
        assert order[m] == us[k];
      }
    }
    assert Crowd(vars, order, context, us, at);
    assert us[|s.active|] == order[n];
    if s.active != [] { assert us[0] == s.active[0]; }
    assert |s.active| == |regs|;
    if s.active != [] {
      var u := if x == order[n] then s.active[0] else order[n];
      assert u in us && u != x && vars[u].end <= vars[x].end;
    }
  }

  lemma SpillEnds(vars: seq<Variable>, vars': seq<Variable>, order: seq<nat>, n: nat, context: nat, regs: seq<int>,
      ctx: int, s: Scan, x: nat)
    requires n < |order| && OrderOk(vars, order) && SameRanges(vars, vars') && OneSpilled(vars, vars', order[n], x)
    requires Scanned(vars', order, n + 1, context, regs, ctx, s, vars[order[n]].start)
    requires SpilledRightly(vars, order, n, context, |regs|) && Displaced(vars, order, context, |regs|, x)
    ensures OrderOk(vars', order) && SpilledRightly(vars', order, n + 1, context, |regs|)
  {
    hide Scanned, Displaced, SpilledRightly;
    Parts(vars', order, n + 1, context, regs, ctx, s, vars[order[n]].start);
    StillRightly(vars, vars', order, n, context, |regs|, x);
  }

  lemma TakenEnds(vars: seq<Variable>, order: seq<nat>, n: nat, context: nat, regs: seq<int>, ctx: int, s: Scan,
      active: seq<nat>)
    requires n < |order| && OrderOk(vars, order) && Scanned(vars, order, n, context, regs, ctx, s, vars[order[n]].start)
    requires order[n] != context && s.free != [] && (active == [order[n]] + s.active || active == s.active + [order[n]])
    requires SpilledRightly(vars, order, n, context, |regs|)
    ensures var vars' := vars[order[n] := vars[order[n]].(reg := s.free[0])];
      && SameRanges(vars, vars') && OrderOk(vars', order) && SpilledRightly(vars', order, n + 1, context, |regs|)
      && Scanned(vars', order, n + 1, context, regs, ctx, Scan(active, s.free[1..]), vars[order[n]].start)
  {
    hide Scanned, Displaced, SpilledRightly;
    Parts(vars, order, n, context, regs, ctx, s, vars[order[n]].start);
    FreeReg(vars, regs, s, s.free[0]);
    hide PoolOk;
    var vars' := vars[order[n] := vars[order[n]].(reg := s.free[0])];
    TakenScanned(vars, order, n, context, regs, ctx, s, active);
    StillRightly(vars, vars', order, n, context, |regs|, order[n]);
  }

  lemma StillRightly(vars: seq<Variable>, vars': seq<Variable>, order: seq<nat>, n: nat, context: nat, size: nat,
      x: nat)
    requires n < |order| && OrderOk(vars, order) && OrderOk(vars', order) && SameRanges(vars, vars')
    requires SpilledRightly(vars, order, n, context, size)
    requires forall u {:trigger vars'[u]} ::
      0 <= u < |vars| && u != order[n] && u != x ==> vars'[u].reg == vars[u].reg
    requires vars'[order[n]].reg == SPILLED ==> x == order[n]
    requires x < |vars'| && (vars'[x].reg == SPILLED ==> Displaced(vars, order, context, size, x))
    ensures SpilledRightly(vars', order, n + 1, context, size)
  {
    hide Displaced;
    forall i | 0 <= i < n + 1 && order[i] != context && vars'[order[i]].reg == SPILLED
      ensures Displaced(vars', order, context, size, order[i]) {
      if order[i] != x { var _ := vars'[order[i]]; }
      DisplacedSame(vars, vars', order, context, size, order[i]);
    }
  }

  lemma Parts(vars: seq<Variable>, order: seq<nat>, n: nat, context: nat, regs: seq<int>, ctx: int, s: Scan, now: nat)
    requires Scanned(vars, order, n, context, regs, ctx, s, now)
    ensures PoolOk(vars, regs, s) && SPILLED !in regs && OrderOk(vars, order)
  {
  }

  lemma RetiredList(vars: seq<Variable>, s: Scan, i: nat)
    requires i < |s.active| && s.active[i] < |vars|
    ensures Retired(vars, s, i).active == s.active[..i] + s.active[i + 1..]
  {
  }

  /** scanRegisters: afterwards no two variables with intersecting ranges share a register, the
      context has its own, and every other variable one of the pool or none; and none is spilled
      but for want of registers, and in favour of one that ends no later. */
  method ScanRegisters(vars: array<Variable>, order: seq<nat>, context: nat, regs: seq<int>, ctx: int)
    requires OrderOk(vars[..], order) && context in order && RegsOk(regs, ctx)
    requires forall i {:trigger order[i]} :: 0 <= i < |order| ==> vars[order[i]].reg == SPILLED
    modifies vars
    ensures SameRanges(old(vars[..]), vars[..]) && OrderOk(vars[..], order) && Sound(vars[..], order, |order|)
    ensures vars[context].reg == ctx && forall i {:trigger order[i]} ::
      0 <= i < |order| && order[i] != context ==> vars[order[i]].reg in regs || vars[order[i]].reg == SPILLED
    ensures SpilledRightly(vars[..], order, |order|, context, |regs|)
    ensures NoneSpilled(vars[..], order, |order|) || Crowded(vars[..], order, context, |regs|)
  {
    hide Scanned, Sound, Crowded, Displaced;
    var scanner := new Scanner(vars, regs);
    vars[context] := vars[context].(reg := ctx);
    Starts(old(vars[..]), vars[..], order, context, regs, ctx);
    var n := 0;
    ghost var now: nat := 0;
    while n < |order|
      invariant 0 <= n <= |order| && scanner.Cursors() && scanner.vars == vars && scanner.end == |regs| &&
        fresh(scanner.pool) && SameRanges(old(vars[..]), vars[..])
      invariant Scanned(vars[..], order, n, context, regs, ctx, scanner.Now(), now)
      invariant OrderOk(vars[..], order) && SpilledRightly(vars[..], order, n, context, |regs|)
    {
      hide Scanned, RegsOk, Displaced;
      Parts(vars[..], order, n, context, regs, ctx, scanner.Now(), now);
      NextIsUnset(vars[..], order, n, context, regs, ctx, scanner.Now(), now);
      var v := order[n];
      if vars[v].reg != SPILLED {
        ContextScanned(vars[..], order, n, context, regs, ctx, scanner.Now(), now);
      } else {
        AgedScanned(vars[..], order, n, context, regs, ctx, scanner.Now(), now);
        now := vars[v].start;
        scanner.RemoveDead(order, n, context, regs, ctx);
        scanner.Assign(order, n, context, regs, ctx);
      }
      n := n + 1;
    }
    AllScanned(vars[..], order, context, regs, ctx, scanner.Now(), now);
    SpilledOnlyCrowded(vars[..], order, context, |regs|);
  }

  lemma Starts(vars: seq<Variable>, vars': seq<Variable>, order: seq<nat>, context: nat, regs: seq<int>, ctx: int)
    requires OrderOk(vars, order) && context < |vars| && RegsOk(regs, ctx) &&
      vars' == vars[context := vars[context].(reg := ctx)]
    requires forall i {:trigger order[i]} :: 0 <= i < |order| ==> vars[order[i]].reg == SPILLED
    ensures Scanned(vars', order, 0, context, regs, ctx, Scan([], regs), 0) && SameRanges(vars, vars')
  {
  }

  lemma NextIsUnset(vars: seq<Variable>, order: seq<nat>, n: nat, context: nat, regs: seq<int>, ctx: int, s: Scan,
      now: nat)
    requires n < |order| && Scanned(vars, order, n, context, regs, ctx, s, now)
    ensures order[n] < |vars| && (vars[order[n]].reg != SPILLED <==> order[n] == context)
  {
    hide PoolOk, Sound;
  }

  lemma AllScanned(vars: seq<Variable>, order: seq<nat>, context: nat, regs: seq<int>, ctx: int, s: Scan, now: nat)
    requires Scanned(vars, order, |order|, context, regs, ctx, s, now)
    ensures OrderOk(vars, order) && Sound(vars, order, |order|) && context < |vars| && vars[context].reg == ctx
    ensures forall i {:trigger order[i]} ::
      0 <= i < |order| && order[i] != context ==> vars[order[i]].reg in regs || vars[order[i]].reg == SPILLED
  {
    hide Sound;
    forall i | 0 <= i < |order| && order[i] != context
      ensures vars[order[i]].reg in regs || vars[order[i]].reg == SPILLED {
      assert Placed(vars, order[i], context, regs, ctx, s, now);
      if order[i] in s.active { ListedReg(vars, regs, s, order[i]); }
    }
  }
}
