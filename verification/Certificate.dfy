/** The certificate circuit written for a safe verdict: AND gates appended to the circuit that
    compute the inductive invariant, whose negation becomes the new bad literal. */
module Certificate {
  import opened Cnf
  import opened Circuit
  import opened Encoding

  /** `d` is `c` with more gates on top; interface, latches and all old gates are untouched. */
  ghost predicate Grown(c: Aig, d: Aig) {
    && GatesOk(Leaves(c) + 1, c.ands) && GatesOk(Leaves(c) + 1, d.ands)
    && c.ands <= d.ands
    && d.inputs == c.inputs && d.latches == c.latches && d.nexts == c.nexts
    && d.reset == c.reset && d.constraints == c.constraints
  }

  lemma {:induction false} GrownEval(c: Aig, d: Aig, e: set<int>, v: int)
    requires Grown(c, d) && 1 <= v <= MaxVar(c)
    ensures Eval(d, e, v) == Eval(c, e, v)
    decreases v
  {
    if v > Leaves(c) {
      var g := c.ands[v - Leaves(c) - 1];
      assert d.ands[v - Leaves(c) - 1] == g;
      GrownEval(c, d, e, Abs(g.i1));
      GrownEval(c, d, e, Abs(g.i2));
    }
  }

  lemma GrownValue(c: Aig, d: Aig, e: set<int>, l: int)
    requires Grown(c, d) && IsLit(l, MaxVar(c))
    ensures Value(d, e, l) == Value(c, e, l)
  {
    GrownEval(c, d, e, Abs(l));
  }

  /** Appends one gate; the larger operand comes first. */
  function AddGate(d: Aig, a: int, b: int): (r: Aig)
    requires GatesOk(Leaves(d) + 1, d.ands) && IsLit(a, MaxVar(d)) && IsLit(b, MaxVar(d))
    ensures Grown(d, r) && MaxVar(r) == MaxVar(d) + 1
  {
    var o := MaxVar(d) + 1;
    d.(ands := d.ands + [if Abs(a) > Abs(b) then And(o, a, b) else And(o, b, a)])
  }

  lemma AddGateValue(d: Aig, a: int, b: int, e: set<int>)
    requires GatesOk(Leaves(d) + 1, d.ands) && IsLit(a, MaxVar(d)) && IsLit(b, MaxVar(d))
    ensures Value(AddGate(d, a, b), e, MaxVar(d) + 1) <==> Value(d, e, a) && Value(d, e, b)
  {
    var r := AddGate(d, a, b);
    GrownValue(d, r, e, a);
    GrownValue(d, r, e, b);
  }

  /** All literals of a cube over arbitrary circuit variables are true. */
  ghost predicate CubeTrue(c: Aig, e: set<int>, q: set<int>)
    requires GatesOk(Leaves(c) + 1, c.ands) && Within(q, MaxVar(c))
  {
    forall l :: l in q ==> Value(c, e, l)
  }

  /** Literal `g` of `d` is true exactly when all of `q` is. */
  ghost predicate ComputesCube(c: Aig, d: Aig, g: int, q: set<int>)
    requires GatesOk(Leaves(c) + 1, c.ands) && Within(q, MaxVar(c))
  {
    Grown(c, d) && IsLit(g, MaxVar(d)) && forall e :: Value(d, e, g) <==> CubeTrue(c, e, q)
  }

  ghost predicate ComputesNone(c: Aig, d: Aig, g: int, cubes: set<set<int>>)
    requires GatesOk(Leaves(c) + 1, c.ands) && AllWithin(cubes, MaxVar(c))
  {
    Grown(c, d) && IsLit(g, MaxVar(d)) && forall e :: Value(d, e, g) <==> forall q :: q in cubes ==> !CubeTrue(c, e, q)
  }

  lemma ExtendCube(c: Aig, d: Aig, g: int, q: set<int>, l: int)
    requires GatesOk(Leaves(c) + 1, c.ands) && Within(q, MaxVar(c)) && IsLit(l, MaxVar(c)) && ComputesCube(c, d, g, q)
    ensures ComputesCube(c, AddGate(d, g, l), MaxVar(d) + 1, q + {l})
  {
    hide AddGate, GatesOk, Value;
    var r := AddGate(d, g, l);
    GrownTrans(c, d, r);
    forall e
      ensures Value(r, e, MaxVar(d) + 1) <==> CubeTrue(c, e, q + {l})
    {
      AddGateValue(d, g, l, e);
      GrownValue(c, d, e, l);
    }
  }

  lemma GrownTrans(c: Aig, d: Aig, r: Aig)
    requires Grown(c, d) && Grown(d, r)
    ensures Grown(c, r) && MaxVar(c) <= MaxVar(d) <= MaxVar(r)
  {
  }

  /** The conjunction of a cube as a chain of gates; the empty cube is the constant true. */
  method CubeGate(c: Aig, d: Aig, q: set<int>) returns (r: Aig, g: int)
    requires Grown(c, d) && Within(q, MaxVar(c))
    ensures ComputesCube(c, r, g, q) && Grown(d, r)
  {
    hide AddGate, Value, GatesOk;
    r := d;
    GrownTrans(c, c, d);
    if q == {} {
      g := -1;
      ConstantTrue(r);
    } else {
      g := Pick(q);
      var todo := q - {g};
      ghost var done := {g};
      SingleLit(c, r, g);
      while todo != {}
        invariant todo !! done && todo + done == q
        invariant ComputesCube(c, r, g, done) && Grown(d, r)
        decreases todo
      {
        var l := Pick(todo);
        ExtendCube(c, r, g, done, l);
        var o := MaxVar(r) + 1;
        var before := r;
        r := AddGate(r, g, l);
        GrownTrans(d, before, r);
        g := o;
        todo := todo - {l};
        done := done + {l};
      }
      assert done == q;
    }
  }

  lemma ConstantTrue(r: Aig)
    requires GatesOk(Leaves(r) + 1, r.ands)
    ensures forall e :: Value(r, e, -1)
  {
  }

  lemma SingleLit(c: Aig, r: Aig, l: int)
    requires Grown(c, r) && IsLit(l, MaxVar(c))
    ensures ComputesCube(c, r, l, {l})
  {
    hide Value;
    forall e
      ensures Value(r, e, l) <==> CubeTrue(c, e, {l})
    {
      GrownValue(c, r, e, l);
      assert l in {l};
    }
  }

  lemma NegatedCube(c: Aig, d: Aig, g: int, q: set<int>)
    requires GatesOk(Leaves(c) + 1, c.ands) && Within(q, MaxVar(c)) && ComputesCube(c, d, g, q)
    ensures ComputesNone(c, d, -g, {q})
  {
    assert forall e :: Value(d, e, -g) <==> !Value(d, e, g);
  }

  lemma ExtendNone(c: Aig, d: Aig, inv: int, done: set<set<int>>, r: Aig, g: int, q: set<int>)
    requires GatesOk(Leaves(c) + 1, c.ands) && AllWithin(done, MaxVar(c)) && Within(q, MaxVar(c))
    requires ComputesNone(c, d, inv, done) && Grown(d, r) && ComputesCube(c, r, g, q)
    ensures IsLit(inv, MaxVar(r)) && ComputesNone(c, AddGate(r, -g, inv), MaxVar(r) + 1, done + {q})
  {
    hide AddGate, GatesOk, CubeTrue;
    GrownTrans(c, d, r);
    var s := AddGate(r, -g, inv);
    GrownTrans(c, r, s);
    var top := MaxVar(r) + 1;
    forall e
      ensures Value(s, e, top) <==> forall p :: p in done + {q} ==> !CubeTrue(c, e, p)
    {
      AddGateValue(r, -g, inv, e);
      GrownValue(d, r, e, inv);
      assert Value(r, e, -g) <==> !Value(r, e, g);
    }
  }

  /** The conjunction of the negations of all cubes. */
  method InvariantGate(c: Aig, cubes: set<set<int>>) returns (d: Aig, inv: int)
    requires WellFormed(c) && AllWithin(cubes, MaxVar(c)) && cubes != {}
    ensures ComputesNone(c, d, inv, cubes)
  {
    hide AddGate, CubeTrue, Value, Within;
    var q := Pick(cubes);
    var g;
    d, g := CubeGate(c, c, q);
    NegatedCube(c, d, g, q);
    inv := -g;
    var todo := cubes - {q};
    ghost var done := {q};
    while todo != {}
      invariant todo !! done && todo + done == cubes
      invariant ComputesNone(c, d, inv, done)
      decreases todo
    {
      q := Pick(todo);
      var r;
      r, g := CubeGate(c, d, q);
      ExtendNone(c, d, inv, done, r, g, q);
      inv, d := MaxVar(r) + 1, AddGate(r, -g, inv);
      todo := todo - {q};
      done := done + {q};
    }
    assert done == cubes;
  }

  /** The circuit `d` certifies `c`: its bad literal is the negation of an invariant that holds
      initially, is kept by every constrained step, and excludes the original bad. */
  ghost predicate Certifies(c: Aig, d: Aig)
    requires WellFormed(c)
  {
    && Grown(c, d) && WellFormed(d)
    && (forall e :: Init(c, e) ==> !Bad(d, e))
    && (forall e, e' :: !Bad(d, e) && Follows(c, e, e') && Constrained(c, e') ==> !Bad(d, e'))
    && (forall e :: !Bad(d, e) ==> !Bad(c, e) && Constrained(c, e))
  }

  ghost predicate InvariantValue(c: Aig, cubes: set<set<int>>, e: set<int>)
    requires WellFormed(c)
  {
    !Bad(c, e) && Constrained(c, e) && Avoids(e, cubes)
  }

  function AllCubes(c: Aig, cubes: set<set<int>>): set<set<int>> {
    cubes + {{c.bad}} + (set l | l in Range(c.constraints) :: {-l})
  }

  lemma LatchCubeTrue(c: Aig, e: set<int>, q: set<int>)
    requires WellFormed(c) && IsCube(c, q)
    ensures Within(q, MaxVar(c)) && (CubeTrue(c, e, q) <==> AllHold(e, q))
  {
    assert forall l :: l in q ==> (Value(c, e, l) <==> Holds(e, l));
  }

  lemma AllCubesWithin(c: Aig, cubes: set<set<int>>)
    requires WellFormed(c) && forall q :: q in cubes ==> IsCube(c, q)
    ensures AllWithin(AllCubes(c, cubes), MaxVar(c))
  {
    forall q | q in cubes
      ensures Within(q, MaxVar(c))
    {
      LatchCubeTrue(c, {}, q);
    }
  }

  lemma AllCubesMeaning(c: Aig, cubes: set<set<int>>, e: set<int>)
    requires WellFormed(c) && (forall q :: q in cubes ==> IsCube(c, q)) && AllWithin(AllCubes(c, cubes), MaxVar(c))
    ensures (forall q :: q in AllCubes(c, cubes) ==> !CubeTrue(c, e, q)) <==> InvariantValue(c, cubes, e)
  {
    hide Eval;
    forall q | q in cubes
      ensures CubeTrue(c, e, q) <==> AllHold(e, q)
    {
      LatchCubeTrue(c, e, q);
    }
    var b: set<int> := {c.bad};
    assert b in AllCubes(c, cubes);
    assert CubeTrue(c, e, b) <==> Bad(c, e) by {
      assert c.bad in b;
    }
    forall l | l in Range(c.constraints)
      ensures {-l} in AllCubes(c, cubes) && (CubeTrue(c, e, {-l}) <==> !Value(c, e, l))
    {
      assert -l in {-l};
      assert Value(c, e, -l) <==> !Value(c, e, l);
    }
    forall k | 0 <= k < |c.constraints|
      ensures c.constraints[k] in Range(c.constraints)
    {
    }
  }

  lemma CertifiesFromInvariant(c: Aig, cubes: set<set<int>>, d: Aig)
    requires WellFormed(c) && Invariant(c, cubes) && Grown(c, d) && WellFormed(d)
    requires forall e :: Bad(d, e) <==> !InvariantValue(c, cubes, e)
    ensures Certifies(c, d)
  {
    hide Bad, Constrained, Follows, Avoids, Grown, WellFormed;
    forall e | Init(c, e)
      ensures InvariantValue(c, cubes, e)
    {
    }
    forall e, e' | InvariantValue(c, cubes, e) && Follows(c, e, e') && Constrained(c, e')
      ensures InvariantValue(c, cubes, e')
    {
      assert Step(c, e, e');
    }
  }

  /** Builds the certificate for an inductive set of blocked cubes. */
  method BuildCertificate(c: Aig, cubes: set<set<int>>) returns (d: Aig)
    requires WellFormed(c) && (forall q :: q in cubes ==> IsCube(c, q)) && Invariant(c, cubes)
    ensures Certifies(c, d)
    ensures forall e :: Bad(d, e) <==> !InvariantValue(c, cubes, e)
  {
    hide CubeTrue, Value, Invariant, InvariantValue, Within;
    AllCubesWithin(c, cubes);
    assert {c.bad} in AllCubes(c, cubes);
    var r, inv := InvariantGate(c, AllCubes(c, cubes));
    d := r.(bad := -inv);
    assert WellFormed(d);
    forall e
      ensures Bad(d, e) <==> !InvariantValue(c, cubes, e)
    {
      AllCubesMeaning(c, cubes, e);
      SameGates(r, d, e, inv);
    }
    CertifiesFromInvariant(c, cubes, d);
  }

  lemma SameGates(r: Aig, d: Aig, e: set<int>, l: int)
    requires Grown(r, d) && d.ands == r.ands && IsLit(l, MaxVar(r))
    ensures Value(d, e, -l) <==> !Value(r, e, l)
  {
    GrownValue(r, d, e, l);
  }
}
