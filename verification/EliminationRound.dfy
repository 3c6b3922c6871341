/** A round of variable elimination.  Units found while resolving are not propagated before the next
    pivot, so later occurrence lists may hold clauses that are satisfied at the root. */
module EliminationRound {
  import opened Cnf
  import opened Extension
  import opened Elim
  import opened Gates
  import opened MatchedGates
  import opened Substitution

  /** One attempt of the round: formula and units before, pivot, lists, and what the attempt leaves. */
  datatype Tried = Tried(f: set<Clause>, units: set<int>, p: int, ps: seq<seq<int>>, ns: seq<seq<int>>, a: Attempt)

  function Others(f: set<Clause>, p: int): set<Clause> {
    f - With(f, p) - With(f, -p)
  }

  /** The lists hold exactly the occurrences of the pivot in the formula before.  The pivot is gone after
      a bounded attempt that finds no unit; otherwise only the unit is added. */
  ghost predicate Attempted(t: Tried, limit: nat, bounded: bool) {
    && PivotLists(t.ps, t.ns, t.p, t.units) && ClausesOf(t.ps) == With(t.f, t.p) && ClausesOf(t.ns) == With(t.f, -t.p)
    && Reported(t.ps, t.ns, t.p, t.units, t.a.gate)
    && (if t.ps == [] then t.a.gate.NoGate? else t.a.gate.NoGate? ==> NothingToFind(t.ps, t.ns, t.p, t.units, limit))
    && (t.a.eliminated <==> bounded && !t.a.gate.UnitFound?)
    && (t.a.eliminated ==> Substituted(Others(t.f, t.p), t.ps, t.ns, t.p, t.units, t.a))
    && (!t.a.eliminated ==> !t.a.unsat && t.a.f == t.f && t.a.units == t.units + if t.a.gate.UnitFound? then {t.a.gate.l} else {})
  }

  ghost predicate Assigned(p: int, units: set<int>) {
    p == 0 || p in units || -p in units
  }

  /** The attempts of a round: one for each pivot that is unassigned when its turn comes, in order, each
      on what the one before left. */
  ghost predicate RunOf(ts: seq<Tried>, pivots: seq<int>, limit: nat, bounded: seq<bool>, f0: set<Clause>, units0: set<int>, f: set<Clause>, units: set<int>)
    requires |bounded| == |pivots|
  {
    if pivots == [] then ts == [] && f == f0 && units == units0
    else
      var n := |pivots| - 1;
      || (Assigned(pivots[n], units) && RunOf(ts, pivots[..n], limit, bounded[..n], f0, units0, f, units))
      || (ts != [] && TurnOf(ts[|ts| - 1], pivots[n], limit, bounded[n], f, units) &&
          RunOf(ts[..|ts| - 1], pivots[..n], limit, bounded[..n], f0, units0, ts[|ts| - 1].f, ts[|ts| - 1].units))
  }

  ghost predicate TurnOf(t: Tried, p: int, limit: nat, bounded: bool, f: set<Clause>, units: set<int>) {
    !Assigned(p, t.units) && t.p == p && Attempted(t, limit, bounded) && t.a.f == f && t.a.units == units
  }

  lemma RunSkips(ts: seq<Tried>, pivots: seq<int>, limit: nat, bounded: seq<bool>, k: int, f0: set<Clause>, units0: set<int>, f: set<Clause>, units: set<int>)
    requires |bounded| == |pivots| && 0 <= k < |pivots| && RunOf(ts, pivots[..k], limit, bounded[..k], f0, units0, f, units) && Assigned(pivots[k], units)
    ensures RunOf(ts, pivots[..k + 1], limit, bounded[..k + 1], f0, units0, f, units)
  {
    hide Assigned, TurnOf;
    var ps, bs := pivots[..k + 1], bounded[..k + 1];
    assert ps[..k] == pivots[..k] && bs[..k] == bounded[..k];
  }

  lemma RunMore(ts: seq<Tried>, pivots: seq<int>, limit: nat, bounded: seq<bool>, k: int, f0: set<Clause>, units0: set<int>, t: Tried)
    requires |bounded| == |pivots| && 0 <= k < |pivots| && RunOf(ts, pivots[..k], limit, bounded[..k], f0, units0, t.f, t.units)
    requires TurnOf(t, pivots[k], limit, bounded[k], t.a.f, t.a.units)
    ensures RunOf(ts + [t], pivots[..k + 1], limit, bounded[..k + 1], f0, units0, t.a.f, t.a.units)
  {
    hide Assigned, TurnOf;
    var ps, bs, us := pivots[..k + 1], bounded[..k + 1], ts + [t];
    assert ps[..k] == pivots[..k] && bs[..k] == bounded[..k] && us[..|us| - 1] == ts;
  }

  ghost predicate Undoable(t: Tried) {
    ReversibleGate(t.ps, t.ns, t.p, t.units, t.a.gate)
  }

  ghost predicate AllUndoable(ts: seq<Tried>) {
    forall k :: 0 <= k < |ts| ==> Undoable(ts[k])
  }

  lemma AllUndoableMore(ts: seq<Tried>, t: Tried)
    ensures AllUndoable(ts + [t]) <==> AllUndoable(ts) && Undoable(t)
  {
    hide Undoable;
    var us := ts + [t];
    assert us[|ts|] == t && forall k :: 0 <= k < |ts| ==> us[k] == ts[k];
    if AllUndoable(us) {
      forall k | 0 <= k < |ts|
        ensures Undoable(ts[k])
      {
        assert Undoable(us[k]);
      }
    }
  }

  lemma NothingTried(limit: nat, f0: set<Clause>, units0: set<int>)
    ensures AllUndoable([]) && RunOf([], [], limit, [], f0, units0, f0, units0)
  {
  }

  /** The clause as a sequence, in some order. */
  method Listed(cl: Clause) returns (c: seq<int>)
    ensures Lits(c) == cl && NoDuplicates(c)
  {
    c := [];
    var left := cl;
    while left != {}
      invariant left <= cl && Lits(c) == cl - left && NoDuplicates(c)
      decreases |left|
    {
      var l := Pick(left);
      left := left - {l};
      LitsAdd(c, l);
      assert l !in Lits(c);
      c := c + [l];
    }
  }

  function With(f: set<Clause>, l: int): set<Clause> {
    set cl | cl in f && l in cl
  }

  lemma ClausesAdd(cs: seq<seq<int>>, c: seq<int>)
    ensures ClausesOf(cs + [c]) == ClausesOf(cs) + {Lits(c)}
  {
    hide Lits;
  }

  /** The occurrence list of a literal. */
  method Occurrences(f: set<Clause>, l: int) returns (cs: seq<seq<int>>)
    requires forall cl :: cl in f ==> NoComplement(cl)
    ensures ClausesOf(cs) == With(f, l) && AllRegular(cs) && forall i :: 0 <= i < |cs| ==> l in cs[i]
  {
    hide NoComplement, Lits;
    cs := [];
    var left := With(f, l);
    while left != {}
      invariant left <= With(f, l) && ClausesOf(cs) == With(f, l) - left && AllRegular(cs)
      invariant forall i :: 0 <= i < |cs| ==> l in cs[i]
      decreases |left|
    {
      var cl := Pick(left);
      left := left - {cl};
      var c := Listed(cl);
      ClausesAdd(cs, c);
      MemberOf(c, l);
      cs := cs + [c];
    }
  }

  lemma MemberOf(c: seq<int>, l: int)
    ensures l in c <==> l in Lits(c)
  {
  }

  /** Splitting the clauses by their occurrences of the pivot. */
  lemma SplitFormula(f: set<Clause>, ps: seq<seq<int>>, ns: seq<seq<int>>, p: int, units: set<int>)
    requires ClausesOf(ps) == With(f, p) && ClausesOf(ns) == With(f, -p) && forall cl :: cl in f ==> NoComplement(cl)
    ensures var rest := f - With(f, p) - With(f, -p);
      Formula(rest, ps, ns, units) == f + Units(units) && forall cl :: cl in rest ==> Free(cl, p)
  {
    var rest := f - With(f, p) - With(f, -p);
    assert rest + With(f, p) + With(f, -p) == f;
  }

  lemma JoinedAll(f: set<Clause>, ps: seq<seq<int>>, ns: seq<seq<int>>, p: int)
    requires ClausesOf(ps) == With(f, p) && ClausesOf(ns) == With(f, -p)
    ensures Joined(Others(f, p), ps, ns) == f
  {
  }

  /** The caller's test on a reported gate. */
  method IsClean(ps: seq<seq<int>>, ns: seq<seq<int>>, units: set<int>, r: GateResult) returns (b: bool)
    ensures b <==> Clean(ps, ns, units, r)
  {
    b := true;
    if r.Gate? {
      var x := AnySatisfied(ps, r.gp, units);
      var y := AnySatisfied(ns, r.gn, units);
      b := !x && !y;
    }
  }

  method AnySatisfied(cs: seq<seq<int>>, g: set<int>, units: set<int>) returns (b: bool)
    ensures b <==> !NoneSatisfied(cs, g, units)
  {
    hide Satisfied;
    var i := 0;
    while i < |cs|
      invariant 0 <= i <= |cs| && forall k :: k in g && 0 <= k < i ==> !Satisfied(cs[k], units)
    {
      if i in g && Satisfied(cs[i], units) {
        return true;
      }
      i := i + 1;
    }
    b := false;
  }

  /** A round over given pivots, with units carried over.  The final formula follows from the first,
      and the pushed entries recover it if every gate was clean, which is so exactly if every
      substitution of the round can be undone whatever the other clauses are. */
  method Round(f0: set<Clause>, units0: set<int>, pivots: seq<int>, limit: nat, bounded: seq<bool>)
    returns (f: set<Clause>, units: set<int>, unsat: bool, clean: bool, es: seq<Entry>, ghost tried: seq<Tried>, ghost done: nat)
    requires NoTautology(f0, units0) && |bounded| == |pivots|
    ensures forall m :: Models(m, f0 + Units(units0)) ==> !unsat && Models(m, f + Units(units))
    ensures !unsat ==> NoTautology(f, units) && units0 <= units
    ensures done <= |pivots| && (!unsat ==> done == |pivots|) && RunOf(tried, pivots[..done], limit, bounded[..done], f0, units0, f, units)
    ensures forall k :: 0 <= k < |tried| ==> (tried[k].a.unsat <==> unsat && k == |tried| - 1)
    ensures unsat ==> tried != []
    ensures clean <==> AllUndoable(tried)
    ensures !unsat && clean ==> Recovers(f + Units(units), f0 + Units(units0), es)
  {
    hide RunOf, Assigned, TurnOf, NoTautology, Recovers, Models, Undoable, AllUndoable;
    NothingTried(limit, f0, units0);
    f, units, unsat, clean, es, tried := f0, units0, false, true, [], [];
    RecoversNothing(f0 + Units(units0));
    var k := 0;
    done := 0;
    while k < |pivots|
      invariant 0 <= k <= |pivots| && done == k && !unsat && NoTautology(f, units) && units0 <= units
      invariant forall m :: Models(m, f0 + Units(units0)) ==> Models(m, f + Units(units))
      invariant RunOf(tried, pivots[..k], limit, bounded[..k], f0, units0, f, units) && (clean <==> AllUndoable(tried))
      invariant forall k :: 0 <= k < |tried| ==> !tried[k].a.unsat
      invariant clean ==> Recovers(f + Units(units), f0 + Units(units0), es)
    {
      var p := pivots[k];
      if p == 0 || p in units || -p in units {
        assert Assigned(p, units) by {
          AssignedMeans(p, units);
        }
        RunSkips(tried, pivots, limit, bounded, k, f0, units0, f, units);
      } else {
        var a, more, ok;
        ghost var t;
        ghost var before := f + Units(units);
        a, more, ok, t := EliminatePivot(f, units, p, limit, bounded[k]);
        AllUndoableMore(tried, t);
        RunMore(tried, pivots, limit, bounded, k, f0, units0, t);
        tried := tried + [t];
        clean := clean && ok;
        f, units := a.f, a.units;
        if a.unsat {
          unsat, done := true, k + 1;
          return;
        }
        if clean {
          RecoversTrans(f + Units(units), before, f0 + Units(units0), es, more);
        }
        es := es + more;
      }
      k, done := k + 1, k + 1;
    }
  }

  lemma AssignedMeans(p: int, units: set<int>)
    ensures Assigned(p, units) <==> p == 0 || p in units || -p in units
  {
  }

  /** One attempt of the round. */
  method EliminatePivot(f: set<Clause>, units: set<int>, p: int, limit: nat, bounded: bool)
    returns (a: Attempt, es: seq<Entry>, clean: bool, ghost t: Tried)
    requires NoTautology(f, units) && p != 0 && p !in units && -p !in units
    ensures forall m :: Models(m, f + Units(units)) ==> !a.unsat && Models(m, a.f + Units(a.units))
    ensures !a.unsat ==> NoTautology(a.f, a.units) && units <= a.units
    ensures TurnOf(t, p, limit, bounded, a.f, a.units) && t.f == f && t.units == units && t.a == a && (clean <==> Undoable(t))
    ensures !a.unsat && clean ==> Recovers(a.f + Units(a.units), f + Units(units), es)
  {
    hide Recovers, Models, Clean, Reported, Survives, Free, Formula, ReversibleGate;
    var ps := Occurrences(f, p);
    var ns := Occurrences(f, -p);
    SplitFormula(f, ps, ns, p, units);
    a, es := TryToEliminate(Others(f, p), ps, ns, p, units, limit, bounded);
    clean := IsClean(ps, ns, units, a.gate);
    ReversibleIffClean(ps, ns, p, units, a.gate);
    t := Tried(f, units, p, ps, ns, a);
    JoinedAll(f, ps, ns, p);
  }

  // ----- a unit that was not propagated -----

  /** The first two clauses of each list match an if-then-else although the very first one is
      satisfied by the unit 9. */
  const Ps := [[1, 2, 3, 9], [1, -2, 4], [1, 5]]
  const Ns := [[-1, 2, -3], [-1, -2, -4], [-1, 6]]
  const Found := Gate({0, 1}, {0, 1})

  lemma ExampleMatches()
    ensures PivotLists(Ps, Ns, 1, {9}) && IteMatch(Ps, Ns, 1, {9}, 0, 1, 0, 1, 2, 3, 4)
    ensures Satisfied(Ps[0], {9}) && !Clean(Ps, Ns, {9}, Found)
  {
    assert 9 in Ps[0];
    ExampleLists();
    ExampleUnassigned();
  }

  lemma ExampleLists()
    ensures PivotLists(Ps, Ns, 1, {9})
  {
    assert Regular(Ps[0]) && Regular(Ps[1]) && Regular(Ps[2]);
    assert Regular(Ns[0]) && Regular(Ns[1]) && Regular(Ns[2]);
    hide Regular;
    forall i | 0 <= i < |Ps|
      ensures Regular(Ps[i]) && 1 in Ps[i]
    {
      assert i == 0 || i == 1 || i == 2;
    }
    forall i | 0 <= i < |Ns|
      ensures Regular(Ns[i]) && -1 in Ns[i]
    {
      assert i == 0 || i == 1 || i == 2;
    }
  }

  lemma ExampleUnassigned()
    ensures IteMatch(Ps, Ns, 1, {9}, 0, 1, 0, 1, 2, 3, 4)
  {
    assert Unassigned(Ps[0], {9}) == {1, 2, 3};
    assert Unassigned(Ps[1], {9}) == {1, -2, 4};
    assert Unassigned(Ns[0], {9}) == {-1, 2, -3};
    assert Unassigned(Ns[1], {9}) == {-1, -2, -4};
  }

  lemma ExampleRests(m: set<int>)
    requires m == {9}
    ensures Rest(m, Lits(Ps[0]), 1) && Rest(m, Lits(Ps[1]), 1) && !Rest(m, Lits(Ps[2]), 1)
    ensures Rest(m, Lits(Ns[0]), -1) && Rest(m, Lits(Ns[1]), -1) && !Rest(m, Lits(Ns[2]), -1)
  {
    assert 9 in Lits(Ps[0]) && Holds(m, 9);
    assert -2 in Lits(Ps[1]) && Holds(m, -2);
    assert -3 in Lits(Ns[0]) && Holds(m, -3);
    assert -2 in Lits(Ns[1]);
  }

  /** Substituting this gate loses the model in which only 9 is true: it satisfies the unit and all
      required resolvents, but neither value of the pivot satisfies the clauses {1, 5} and {-1, 6}.
      By the contract of an attempt nothing that is pushed recovers the formula. */
  lemma ExampleLoses()
    ensures Source({}, Flag(Ps, {0, 1}), Flag(Ns, {0, 1}), 1, {9}, true, {9})
    ensures !Survives({}, Flag(Ps, {0, 1}), Flag(Ns, {0, 1}), 1, {9}, true)
    ensures forall m :: m == {9} || m == {1, 9} ==> !Models(m, Formula({}, Ps, Ns, {9}))
  {
    var m := {9};
    ExampleRests(m);
    var fp, fn := Flag(Ps, {0, 1}), Flag(Ns, {0, 1});
    assert fp[2].lits == Ps[2] && fn[2].lits == Ns[2];
    assert PairsHold(fp, fn, 1, true, m) by {
      ExamplePairs(m);
    }
    NotBalanced(fp, fn, 1, m);
    NotSurvives({}, fp, fn, 1, {9}, m);
    hide Source, Survives, Models, Formula;
    NoValueWorks();
  }

  lemma NoValueWorks()
    ensures forall m :: m == {9} || m == {1, 9} ==> !Models(m, Formula({}, Ps, Ns, {9}))
  {
    assert Ps[2] in Ps && Ns[2] in Ns;
    var f := Formula({}, Ps, Ns, {9});
    var a: Clause, b: Clause := {1, 5}, {-1, 6};
    assert Lits(Ps[2]) == a && Lits(Ns[2]) == b;
    assert a in f && b in f;
    assert !Satisfies({9}, a) && !Satisfies({1, 9}, b);
  }

  lemma ExamplePairs(m: set<int>)
    requires m == {9}
    ensures PairsHold(Flag(Ps, {0, 1}), Flag(Ns, {0, 1}), 1, true, m)
  {
    ExampleRests(m);
    hide Rest;
    var fp, fn := Flag(Ps, {0, 1}), Flag(Ns, {0, 1});
    forall i, j | 0 <= i < |fp| && 0 <= j < |fn| && Needed(true, fp[i], fn[j])
      ensures Rest(m, Lits(fp[i].lits), 1) || Rest(m, Lits(fn[j].lits), -1)
    {
      assert (i == 0 || i == 1 || i == 2) && (j == 0 || j == 1 || j == 2);
    }
  }
}
