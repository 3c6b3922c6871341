/** And-inverter graphs with latches, as the checker holds them after translation to DIMACS
    numbering: variable 1 is the constant false, then inputs, then latches, then AND gates. */
module Circuit {
  import opened Cnf

  datatype And = And(o: int, i1: int, i2: int)

  datatype Aig = Aig(
    inputs: nat,
    latches: nat,
    ands: seq<And>,
    nexts: seq<int>,
    reset: set<int>,
    bad: int,
    constraints: seq<int>)

  /** Last input or latch variable. */
  function Leaves(c: Aig): nat {
    1 + c.inputs + c.latches
  }

  function MaxVar(c: Aig): nat {
    Leaves(c) + |c.ands|
  }

  function LatchVar(c: Aig, k: int): int {
    c.inputs + 2 + k
  }

  predicate IsLatch(c: Aig, v: int) {
    c.inputs + 2 <= v <= Leaves(c)
  }

  predicate IsInput(c: Aig, v: int) {
    2 <= v <= c.inputs + 1
  }

  predicate IsLit(l: int, n: int) {
    l != 0 && Abs(l) <= n
  }

  /** Gates are numbered consecutively and read only smaller variables. */
  predicate GatesOk(first: int, ands: seq<And>) {
    forall k :: 0 <= k < |ands| ==>
      && ands[k].o == first + k
      && IsLit(ands[k].i1, ands[k].o - 1)
      && IsLit(ands[k].i2, ands[k].o - 1)
  }

  ghost predicate WellFormed(c: Aig) {
    && GatesOk(Leaves(c) + 1, c.ands)
    && |c.nexts| == c.latches
    && (forall k :: 0 <= k < c.latches ==> IsLit(c.nexts[k], MaxVar(c)))
    && (forall l :: l in c.reset ==> IsLatch(c, Abs(l)) && -l !in c.reset)
    && IsLit(c.bad, MaxVar(c))
    && (forall k :: 0 <= k < |c.constraints| ==> IsLit(c.constraints[k], MaxVar(c)))
  }

  /** Value of a variable under an assignment `e` of inputs and latches (the set of true ones). */
  ghost predicate Eval(c: Aig, e: set<int>, v: int)
    requires GatesOk(Leaves(c) + 1, c.ands) && 1 <= v <= MaxVar(c)
    decreases v, 0
  {
    if v == 1 then false
    else if v <= Leaves(c) then v in e
    else
      var g := c.ands[v - Leaves(c) - 1];
      Value(c, e, g.i1) && Value(c, e, g.i2)
  }

  ghost predicate Value(c: Aig, e: set<int>, l: int)
    requires GatesOk(Leaves(c) + 1, c.ands) && IsLit(l, MaxVar(c))
    decreases Abs(l), 1
  {
    if l > 0 then Eval(c, e, l) else !Eval(c, e, -l)
  }

  ghost predicate Bad(c: Aig, e: set<int>)
    requires WellFormed(c)
  {
    Value(c, e, c.bad)
  }

  ghost predicate Constrained(c: Aig, e: set<int>)
    requires WellFormed(c)
  {
    forall k :: 0 <= k < |c.constraints| ==> Value(c, e, c.constraints[k])
  }

  ghost predicate Follows(c: Aig, e: set<int>, e': set<int>)
    requires WellFormed(c)
  {
    forall k :: 0 <= k < c.latches ==> (LatchVar(c, k) in e' <==> Value(c, e, c.nexts[k]))
  }

  /** An initial state together with inputs: latches at their reset values, constraints met. */
  ghost predicate Init(c: Aig, e: set<int>)
    requires WellFormed(c)
  {
    AllHold(e, c.reset) && Constrained(c, e)
  }

  /** The transitions every frame solver describes: from a state that is not bad, both ends
      meeting the constraints. */
  ghost predicate Step(c: Aig, e: set<int>, e': set<int>)
    requires WellFormed(c)
  {
    Constrained(c, e) && !Bad(c, e) && Follows(c, e, e') && Constrained(c, e')
  }

  /** What the checker is asked about, with no reference to any algorithm. */
  ghost predicate IsTrace(c: Aig, tr: seq<set<int>>)
    requires WellFormed(c)
  {
    && |tr| > 0
    && AllHold(tr[0], c.reset)
    && (forall j :: 0 <= j < |tr| ==> Constrained(c, tr[j]))
    && (forall j :: 0 <= j < |tr| - 1 ==> Follows(c, tr[j], tr[j + 1]))
  }

  ghost predicate IsCounterexample(c: Aig, tr: seq<set<int>>)
    requires WellFormed(c)
  {
    IsTrace(c, tr) && Bad(c, tr[|tr| - 1])
  }

  ghost predicate Safe(c: Aig)
    requires WellFormed(c)
  {
    forall tr :: !IsCounterexample(c, tr)
  }

  /** Latch values after one step, as a set of true latch variables. */
  ghost function NextLatches(c: Aig, e: set<int>): (n: set<int>)
    requires WellFormed(c)
    ensures forall k :: 0 <= k < c.latches ==> (LatchVar(c, k) in n <==> Value(c, e, c.nexts[k]))
    ensures forall v :: v in n ==> IsLatch(c, v)
  {
    set v: int | v in UpTo(Leaves(c)) && IsLatch(c, v) && Value(c, e, c.nexts[v - c.inputs - 2])
  }

  /** Two assignments give the same inputs and latches. */
  ghost predicate SameLeaves(c: Aig, a: set<int>, b: set<int>) {
    forall v :: 2 <= v <= Leaves(c) ==> (v in a <==> v in b)
  }

  lemma {:induction false} EvalSame(c: Aig, a: set<int>, b: set<int>, v: int)
    requires GatesOk(Leaves(c) + 1, c.ands) && 1 <= v <= MaxVar(c)
    requires SameLeaves(c, a, b)
    ensures Eval(c, a, v) == Eval(c, b, v)
    decreases v
  {
    if v > Leaves(c) {
      var g := c.ands[v - Leaves(c) - 1];
      EvalSame(c, a, b, Abs(g.i1));
      EvalSame(c, a, b, Abs(g.i2));
    }
  }

  /** Everything the engines ask about a state depends only on its inputs and latches. */
  lemma SemanticsSame(c: Aig, a: set<int>, b: set<int>)
    requires WellFormed(c) && SameLeaves(c, a, b)
    ensures Bad(c, a) == Bad(c, b)
    ensures Constrained(c, a) == Constrained(c, b)
    ensures Init(c, a) == Init(c, b)
    ensures forall x :: Follows(c, a, x) <==> Follows(c, b, x)
    ensures forall x :: Follows(c, x, a) <==> Follows(c, x, b)
  {
    forall v | 1 <= v <= MaxVar(c)
      ensures Eval(c, a, v) == Eval(c, b, v)
    {
      EvalSame(c, a, b, v);
    }
    assert forall l :: IsLit(l, MaxVar(c)) ==> Value(c, a, l) == Value(c, b, l);
    forall l | l in c.reset
      ensures Holds(a, l) == Holds(b, l)
    {
      assert 2 <= Abs(l) <= Leaves(c);
    }
    forall x
      ensures Follows(c, x, a) <==> Follows(c, x, b)
    {
      forall k | 0 <= k < c.latches
        ensures LatchVar(c, k) in a <==> LatchVar(c, k) in b
      {
        assert 2 <= LatchVar(c, k) <= Leaves(c);
      }
    }
  }

  /** Cubes are sets of latch literals. */
  predicate IsCube(c: Aig, q: set<int>) {
    forall l :: l in q ==> l != 0 && IsLatch(c, Abs(l))
  }

  lemma CubeSame(c: Aig, a: set<int>, b: set<int>, q: set<int>)
    requires SameLeaves(c, a, b) && IsCube(c, q)
    ensures AllHold(a, q) == AllHold(b, q)
  {
    forall l | l in q
      ensures Holds(a, l) == Holds(b, l)
    {
      assert 2 <= Abs(l) <= Leaves(c);
    }
  }

  /** A state avoids a set of blocked cubes. */
  ghost predicate Avoids(e: set<int>, cubes: set<set<int>>) {
    forall q :: q in cubes ==> !AllHold(e, q)
  }

  lemma AvoidsSame(c: Aig, a: set<int>, b: set<int>, cubes: set<set<int>>)
    requires SameLeaves(c, a, b) && forall q :: q in cubes ==> IsCube(c, q)
    ensures Avoids(a, cubes) == Avoids(b, cubes)
  {
    forall q | q in cubes
      ensures AllHold(a, q) == AllHold(b, q)
    {
      CubeSame(c, a, b, q);
    }
  }

  /** The safety argument behind the verdict "safe": blocked cubes whose complement contains the
      initial states, is closed under Step, and has no bad successor leave no counterexample. */
  ghost predicate Invariant(c: Aig, cubes: set<set<int>>)
    requires WellFormed(c)
  {
    && (forall e :: Init(c, e) ==> Avoids(e, cubes) && !Bad(c, e))
    && (forall e, e' :: Avoids(e, cubes) && Step(c, e, e') ==> Avoids(e', cubes) && !Bad(c, e'))
  }

  lemma {:induction false} InvariantAlongTrace(c: Aig, cubes: set<set<int>>, tr: seq<set<int>>, n: nat)
    requires WellFormed(c) && Invariant(c, cubes) && IsTrace(c, tr) && n < |tr|
    ensures Avoids(tr[n], cubes) && !Bad(c, tr[n])
  {
    if n == 0 {
      assert Init(c, tr[0]);
    } else {
      InvariantAlongTrace(c, cubes, tr, n - 1);
      assert Follows(c, tr[n - 1], tr[n - 1 + 1]);
      assert Step(c, tr[n - 1], tr[n]);
    }
  }

  lemma InvariantImpliesSafe(c: Aig, cubes: set<set<int>>)
    requires WellFormed(c) && Invariant(c, cubes)
    ensures Safe(c)
  {
    forall tr | IsTrace(c, tr)
      ensures !Bad(c, tr[|tr| - 1])
    {
      InvariantAlongTrace(c, cubes, tr, |tr| - 1);
    }
  }
}
