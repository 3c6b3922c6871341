/** CNF encodings of the circuit: initial condition, bad cone, and the transition relation with
    primed copies of the bad and constraint cones, restricted to the cone of influence. */
module Encoding {
  import opened Cnf
  import opened Circuit

  /** First primed variable; primed inputs and latches follow in order. */
  function FirstPrime(c: Aig): nat {
    MaxVar(c) + 1
  }

  function LeafPrime(c: Aig, v: int): int {
    FirstPrime(c) + v - 2
  }

  predicate Primed(c: Aig, primes: map<int, int>, v: int) {
    1 <= v <= Leaves(c) || v in primes
  }

  function PrimeOf(c: Aig, primes: map<int, int>, v: int): int
    requires Primed(c, primes, v)
  {
    if v == 1 then 1
    else if 1 <= v <= Leaves(c) then LeafPrime(c, v)
    else primes[v]
  }

  function PrimeLit(c: Aig, primes: map<int, int>, l: int): int
    requires Primed(c, primes, Abs(l))
  {
    if l >= 0 then PrimeOf(c, primes, l) else -PrimeOf(c, primes, -l)
  }

  /** Latch literals never need the map. */
  function PrimeLeaf(c: Aig, l: int): int
    requires 1 <= Abs(l) <= Leaves(c)
  {
    PrimeLit(c, map[], l)
  }

  /** Successor state read off a model: unprimed names of the true primed inputs and latches. */
  function Unprime(c: Aig, m: set<int>): (e: set<int>)
    ensures forall v :: 2 <= v <= Leaves(c) ==> (v in e <==> LeafPrime(c, v) in m)
  {
    set v: int | v in UpTo(Leaves(c)) && 2 <= v && LeafPrime(c, v) in m
  }

  /** Every variable of the model has the value its gate computes. */
  ghost predicate Consistent(c: Aig, m: set<int>)
    requires WellFormed(c)
  {
    forall v :: 1 <= v <= MaxVar(c) ==> (v in m <==> Eval(c, m, v))
  }

  ghost function Completion(c: Aig, e: set<int>): (m: set<int>)
    requires WellFormed(c)
    ensures forall v :: v in m <==> 1 <= v <= MaxVar(c) && Eval(c, e, v)
    ensures Consistent(c, m) && SameLeaves(c, e, m)
  {
    var m := set v: int | v in UpTo(MaxVar(c)) && Eval(c, e, v);
    assert SameLeaves(c, e, m);
    assert Consistent(c, m) by {
      forall v | 1 <= v <= MaxVar(c)
        ensures v in m <==> Eval(c, m, v)
      {
        EvalSame(c, e, m, v);
      }
    }
    m
  }

  lemma ConsistentHolds(c: Aig, m: set<int>, l: int)
    requires WellFormed(c) && Consistent(c, m) && IsLit(l, MaxVar(c))
    ensures Holds(m, l) <==> Value(c, m, l)
  {
  }

  // ----- cone of influence -----

  function ClausesOf(a: And): set<Clause> {
    GateClauses(a.o, a.i1, a.i2)
  }

  /** `cone` is closed under fan-in from gate number `from` on, and `f` holds its gate clauses. */
  ghost predicate ConeFrom(c: Aig, from: int, cone: set<int>, f: set<Clause>)
    requires WellFormed(c)
  {
    && (forall v :: v in cone ==> 1 <= v <= MaxVar(c))
    && (forall k :: from <= k < |c.ands| && 0 <= k && c.ands[k].o in cone ==>
          && Abs(c.ands[k].i1) in cone
          && Abs(c.ands[k].i2) in cone
          && ClausesOf(c.ands[k]) <= f)
  }

  ghost predicate OnlyGates(c: Aig, f: set<Clause>) {
    forall cl :: cl in f ==> exists k :: 0 <= k < |c.ands| && cl in ClausesOf(c.ands[k])
  }

  /** In a model of a fan-in closed cone, each cone variable has its circuit value. */
  lemma {:induction false} ConeSound(c: Aig, cone: set<int>, f: set<Clause>, m: set<int>, v: int)
    requires WellFormed(c) && ConeFrom(c, 0, cone, f) && v in cone
    requires Models(m, f) && 1 !in m
    ensures v in m <==> Eval(c, m, v)
    decreases v
  {
    if v > Leaves(c) {
      var k := v - Leaves(c) - 1;
      var g := c.ands[k];
      assert g.o == v;
      ModelsSubset(m, ClausesOf(g), f);
      GateMeaning(m, g.o, g.i1, g.i2);
      ConeSound(c, cone, f, m, Abs(g.i1));
      ConeSound(c, cone, f, m, Abs(g.i2));
    }
  }

  lemma GatesComplete(c: Aig, f: set<Clause>, m: set<int>)
    requires WellFormed(c) && OnlyGates(c, f) && Consistent(c, m)
    ensures Models(m, f)
  {
    forall cl | cl in f
      ensures Satisfies(m, cl)
    {
      var k :| 0 <= k < |c.ands| && cl in ClausesOf(c.ands[k]);
      var g := c.ands[k];
      assert g.o == Leaves(c) + 1 + k;
      ConsistentHolds(c, m, g.i1);
      ConsistentHolds(c, m, g.i2);
      GateMeaning(m, g.o, g.i1, g.i2);
    }
  }

  lemma GatesWithin(c: Aig, f: set<Clause>)
    requires WellFormed(c) && OnlyGates(c, f)
    ensures AllWithin(f, MaxVar(c))
  {
    forall cl | cl in f
      ensures Within(cl, MaxVar(c))
    {
      var k :| 0 <= k < |c.ands| && cl in ClausesOf(c.ands[k]);
      assert c.ands[k].o == Leaves(c) + 1 + k;
    }
  }

  /** What a cone encoding guarantees: roots carry their circuit value in every model, and the
      gate values of any state form a model. */
  ghost predicate EncodesCone(c: Aig, roots: set<int>, f: set<Clause>)
    requires WellFormed(c)
  {
    && AllWithin(f, MaxVar(c))
    && (forall m, v :: Models(m, f) && 1 !in m && v in roots ==> 1 <= v <= MaxVar(c) && (v in m <==> Eval(c, m, v)))
    && (forall m :: Consistent(c, m) ==> Models(m, f))
  }

  method EncodeCone(c: Aig, roots: set<int>) returns (f: set<Clause>)
    requires WellFormed(c) && forall v :: v in roots ==> 1 <= v <= MaxVar(c)
    ensures EncodesCone(c, roots, f)
  {
    f := {};
    var cone := roots;
    var k := |c.ands|;
    while k > 0
      invariant 0 <= k <= |c.ands|
      invariant roots <= cone
      invariant ConeFrom(c, k, cone, f)
      invariant OnlyGates(c, f)
    {
      k := k - 1;
      var a := c.ands[k];
      assert a.o == Leaves(c) + 1 + k;
      if a.o in cone {
        ghost var before, g := cone, f;
        cone := cone + {Abs(a.i1), Abs(a.i2)};
        f := f + GateClauses(a.o, a.i1, a.i2);
        ConeStep(c, k, before, g, cone, f);
        OnlyGatesStep(c, g, k);
      } else {
        assert ConeFrom(c, k, cone, f);
      }
    }
    GatesWithin(c, f);
    forall m, v | Models(m, f) && 1 !in m && v in roots
      ensures v in m <==> Eval(c, m, v)
    {
      ConeSound(c, cone, f, m, v);
    }
    forall m | Consistent(c, m)
      ensures Models(m, f)
    {
      GatesComplete(c, f, m);
    }
  }

  /** Adding the fan-in of gate `k` cannot reopen a gate already passed, since fan-ins are smaller. */
  lemma ConeStep(c: Aig, k: int, cone: set<int>, f: set<Clause>, cone': set<int>, f': set<Clause>)
    requires WellFormed(c) && 0 <= k < |c.ands| && ConeFrom(c, k + 1, cone, f)
    requires c.ands[k].o in cone
    requires cone' == cone + {Abs(c.ands[k].i1), Abs(c.ands[k].i2)}
    requires f + ClausesOf(c.ands[k]) <= f'
    ensures ConeFrom(c, k, cone', f')
  {
    forall j | k <= j < |c.ands| && c.ands[j].o in cone'
      ensures Abs(c.ands[j].i1) in cone' && Abs(c.ands[j].i2) in cone' && ClausesOf(c.ands[j]) <= f'
    {
      assert c.ands[j].o == Leaves(c) + 1 + j && c.ands[k].o == Leaves(c) + 1 + k;
      if j > k {
        assert c.ands[j].o in cone;
      }
    }
  }

  lemma OnlyGatesStep(c: Aig, f: set<Clause>, k: int)
    requires OnlyGates(c, f) && 0 <= k < |c.ands|
    ensures OnlyGates(c, f + ClausesOf(c.ands[k]))
  {
    forall cl | cl in f + ClausesOf(c.ands[k])
      ensures exists j :: 0 <= j < |c.ands| && cl in ClausesOf(c.ands[j])
    {
      if cl in ClausesOf(c.ands[k]) {
      } else {
        assert cl in f;
      }
    }
  }

  // ----- initial condition -----

  ghost predicate EncodesInit(c: Aig, f: set<Clause>)
    requires WellFormed(c)
  {
    && AllWithin(f, MaxVar(c))
    && (forall m :: Models(m, f) ==> Init(c, m) && 1 !in m)
    && (forall m :: Consistent(c, m) && Init(c, m) ==> Models(m, f))
  }

  function Range(ls: seq<int>): set<int> {
    set l | l in ls
  }

  function Vars(ls: set<int>): set<int> {
    set l | l in ls :: Abs(l)
  }

  lemma ConstraintsHold(c: Aig, m: set<int>)
    requires WellFormed(c)
    requires forall k :: 0 <= k < |c.constraints| ==> (Holds(m, c.constraints[k]) <==> Value(c, m, c.constraints[k]))
    ensures AllHold(m, Range(c.constraints)) <==> Constrained(c, m)
  {
    if AllHold(m, Range(c.constraints)) {
      forall k | 0 <= k < |c.constraints|
        ensures Value(c, m, c.constraints[k])
      {
        assert c.constraints[k] in Range(c.constraints);
      }
    }
  }

  method EncodeInit(c: Aig) returns (f: set<Clause>)
    requires WellFormed(c)
    ensures EncodesInit(c, f)
  {
    var cons := Range(c.constraints);
    forall v | v in Vars(cons)
      ensures 1 <= v <= MaxVar(c)
    {
      var l :| l in cons && Abs(l) == v;
    }
    var cone := EncodeCone(c, Vars(cons));
    var fixed := {-1} + c.reset + cons;
    f := Units(fixed) + cone;
    assert AllWithin(f, MaxVar(c));
    forall m
      ensures Models(m, f) <==> AllHold(m, fixed) && Models(m, cone)
      ensures Models(m, f) ==> 1 !in m && AllHold(m, c.reset) && AllHold(m, cons)
    {
      ModelsUnion(m, Units(fixed), cone);
      UnitsMeaning(m, fixed);
      if Models(m, f) {
        assert Holds(m, -1);
      }
    }
    forall m | Models(m, f)
      ensures Init(c, m) && 1 !in m
    {
      forall k | 0 <= k < |c.constraints|
        ensures Holds(m, c.constraints[k]) <==> Value(c, m, c.constraints[k])
      {
        assert Abs(c.constraints[k]) in Vars(cons);
      }
      ConstraintsHold(c, m);
    }
    forall m | Consistent(c, m) && Init(c, m)
      ensures Models(m, f)
    {
      forall k | 0 <= k < |c.constraints|
        ensures Holds(m, c.constraints[k]) <==> Value(c, m, c.constraints[k])
      {
        ConsistentHolds(c, m, c.constraints[k]);
      }
      ConstraintsHold(c, m);
      assert Holds(m, -1);
    }
  }
}
