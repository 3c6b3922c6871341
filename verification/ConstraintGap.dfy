/** Lifting asserts that the predecessor is not bad but does not assert the invariant constraints.
    A circuit that is not shielded, on which a permitted run ends in the wrong verdict. */
module ConstraintGap {
  import opened Cnf
  import opened Circuit
  import opened FrameSolver
  import opened Ic3

  // ----- a circuit where the engine blocks an initial state -----

  /** Input 2; latches 3 (kept), 4 and 5 (set to true), 6 (copies 5), all initially false.
      Bad is `6 or (2 and not (3 and not 4))`; the constraint is `not 2 or 3`. */
  const Example := Aig(1, 4,
                       [And(7, 3, -4), And(8, 2, -7), And(9, -8, -6), And(10, 2, -3)],
                       [3, -1, -1, 5], {-3, -4, -5, -6}, -9, [-10])

  lemma ExampleOk()
    ensures WellFormed(Example)
  {
  }

  lemma ExampleMeaning(e: set<int>, e': set<int>)
    requires WellFormed(Example)
    ensures Bad(Example, e) <==> 6 in e || (2 in e && !(3 in e && 4 !in e))
    ensures Constrained(Example, e) <==> 2 !in e || 3 in e
    ensures Follows(Example, e, e') <==> (3 in e' <==> 3 in e) && 4 in e' && 5 in e' && (6 in e' <==> 5 in e)
    ensures AllHold(e, Example.reset) <==> 3 !in e && 4 !in e && 5 !in e && 6 !in e
  {
    var c := Example;
    assert c.ands[0] == And(7, 3, -4) && c.ands[1] == And(8, 2, -7) && c.ands[2] == And(9, -8, -6) && c.ands[3] == And(10, 2, -3);
    assert Leaves(c) == 6 && MaxVar(c) == 10;
    assert Eval(c, e, 7) <==> 3 in e && 4 !in e;
    assert Eval(c, e, 8) <==> 2 in e && !Eval(c, e, 7);
    assert Eval(c, e, 9) <==> !Eval(c, e, 8) && 6 !in e;
    assert Eval(c, e, 10) <==> 2 in e && 3 !in e;
    assert Constrained(c, e) <==> Value(c, e, c.constraints[0]);
    NextMeaning(c, e, e');
    assert AllHold(e, c.reset) <==> Holds(e, -3) && Holds(e, -4) && Holds(e, -5) && Holds(e, -6);
  }

  lemma NextMeaning(c: Aig, e: set<int>, e': set<int>)
    requires WellFormed(c) && c == Example
    ensures Follows(c, e, e') <==> (3 in e' <==> 3 in e) && 4 in e' && 5 in e' && (6 in e' <==> 5 in e)
  {
    assert Value(c, e, c.nexts[0]) == (3 in e) && Value(c, e, c.nexts[1]) && Value(c, e, c.nexts[2]) && Value(c, e, c.nexts[3]) == (5 in e);
    assert LatchVar(c, 0) == 3 && LatchVar(c, 1) == 4 && LatchVar(c, 2) == 5 && LatchVar(c, 3) == 6;
    if (3 in e' <==> 3 in e) && 4 in e' && 5 in e' && (6 in e' <==> 5 in e) {
      forall k | 0 <= k < c.latches
        ensures LatchVar(c, k) in e' <==> Value(c, e, c.nexts[k])
      {
        assert k == 0 || k == 1 || k == 2 || k == 3;
      }
    }
  }

  /** The circuit has a counterexample of three states, none shorter. */
  lemma ExampleUnsafe()
    ensures WellFormed(Example) && IsCounterexample(Example, [{}, {4, 5}, {4, 5, 6}])
    ensures forall e :: Init(Example, e) ==> !Bad(Example, e)
    ensures NoBadSuccessor(Example, true, {})
  {
    ExampleOk();
    var c := Example;
    hide WellFormed, Example, Bad, Constrained, Follows;
    var tr: seq<set<int>> := [{}, {4, 5}, {4, 5, 6}];
    forall e, e'
      ensures Bad(Example, e) <==> 6 in e || (2 in e && !(3 in e && 4 !in e))
      ensures Constrained(Example, e) <==> 2 !in e || 3 in e
      ensures Follows(Example, e, e') <==> (3 in e' <==> 3 in e) && 4 in e' && 5 in e' && (6 in e' <==> 5 in e)
      ensures AllHold(e, Example.reset) <==> 3 !in e && 4 !in e && 5 !in e && 6 !in e
    {
      ExampleMeaning(e, e');
    }
    assert Follows(c, tr[0], tr[1]) && Follows(c, tr[1], tr[2]);
    assert Constrained(c, tr[0]) && Constrained(c, tr[1]) && Constrained(c, tr[2]);
  }

  lemma ExampleInputs(e: set<int>, x: set<int>)
    ensures SameInputs(Example, e, x) <==> (2 in e <==> 2 in x)
  {
    assert forall v: int :: IsInput(Example, v) <==> v == 2;
  }

  /** With two open frames the search for a bad successor can return the state with input and latch
      3 true, and lifting it can return the empty cube, which contains the initial state. */
  lemma ExampleLift()
    ensures WellFormed(Example)
    ensures var fs: seq<set<Cube>> := [{}, {}, {}];
      Sound(Example, fs) && In(Example, fs, 1, {2, 3}) && Bad(Example, {2, 3, 4, 5}) && MeetsInit(Example, {})
    ensures Returned(Example, {}, {2, 3}, {2, 3, 4, 5}, ToBad)
  {
    ExampleOk();
    var c := Example;
    hide WellFormed, Example, Bad, Constrained, Follows, SameInputs;
    ExampleUnsafe();
    forall e, e'
      ensures Bad(Example, e) <==> 6 in e || (2 in e && !(3 in e && 4 !in e))
      ensures Constrained(Example, e) <==> 2 !in e || 3 in e
      ensures Follows(Example, e, e') <==> (3 in e' <==> 3 in e) && 4 in e' && 5 in e' && (6 in e' <==> 5 in e)
      ensures AllHold(e, Example.reset) <==> 3 !in e && 4 !in e && 5 !in e && 6 !in e
      ensures SameInputs(Example, e, e') <==> (2 in e <==> 2 in e')
    {
      ExampleMeaning(e, e');
      ExampleInputs(e, e');
    }
    assert Init(c, {});
  }

  /** The empty cube is not legal, so the circuit is not shielded. */
  lemma ExampleNotShielded()
    ensures WellFormed(Example) && !Legal(Example, {}, {2, 3}, {2, 3, 4, 5}, ToBad) && !Shielded(Example)
  {
    ExampleLift();
    var c := Example;
    hide WellFormed, Example, Bad, Constrained, Follows, SameInputs, Shielded, Returned, Sound;
    var e, e' := {2}, {2, 4, 5};
    ExampleMeaning(e, e');
    ExampleInputs(e, {2, 3});
    ExampleInputs(e', {2, 3, 4, 5});
    assert Follows(c, e, e') && !Constrained(c, e);
    if Shielded(c) {
      ReturnedIsLegal(c, {}, {2, 3}, {2, 3, 4, 5}, ToBad);
    }
  }

  /** The rest of that run.  The empty cube counts as inductive at both levels and is blocked in
      frames 1 and 2; then frame 1 has no bad successor, its list is empty, and propagation reports
      "safe", although the circuit has a counterexample. */
  lemma ExampleWrongVerdict()
    ensures WellFormed(Example)
    ensures var fs: seq<set<Cube>> := [{}, {}, {}];
      var gs := AddUpTo(fs, {}, 2);
      var lists: seq<set<Cube>> := [{}, {}, {{}}];
      && Blocked(Example, true, fs[0], {}, {}) && Blocked(Example, false, fs[1], {}, {})
      && !Sound(Example, gs) && ListsOk(gs, lists)
      && NoBadSuccessor(Example, false, gs[1]) && lists[1] == {}
      && !Safe(Example)
  {
    ExampleUnsafe();
    ExampleLift();
    hide WellFormed, Example, Bad, Constrained, Follows, MeetsInit;
    var fs: seq<set<Cube>> := [{}, {}, {}];
    var gs := AddUpTo(fs, {}, 2);
    var q: Cube := {};
    assert q in gs[1] && gs[1] == {q} && gs[2] == {q};
    assert MeetsInit(Example, q);
    var lists: seq<set<Cube>> := [{}, {}, {q}];
    forall i, r | 1 <= i < |gs| && r in gs[i]
      ensures Kept(lists, i, r)
    {
      assert q in lists[2] && q <= r;
    }
    assert forall e :: !Avoids(e, gs[1]) by {
      assert forall e :: AllHold(e, q);
    }
    assert IsCounterexample(Example, [{}, {4, 5}, {4, 5, 6}]);
  }
}
