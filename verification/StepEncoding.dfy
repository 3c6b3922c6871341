/** The transition relation as CNF: latch links, the cone of all next-state functions, and primed
    copies of the bad and constraint cones whose variables are allocated on demand. */
module StepEncoding {
  import opened Cnf
  import opened Circuit
  import opened Encoding

  // ----- primed variables -----

  /** Allocated primes lie above all primed leaves and are pairwise different. */
  ghost predicate PrimesOk(c: Aig, primes: map<int, int>, size: int) {
    && FirstPrime(c) + c.inputs + c.latches <= size
    && (forall v :: v in primes ==> Leaves(c) < v <= MaxVar(c) && FirstPrime(c) + c.inputs + c.latches <= primes[v] < size)
    && (forall v, w :: v in primes && w in primes && primes[v] == primes[w] ==> v == w)
  }

  ghost predicate Extends(primes: map<int, int>, primes': map<int, int>) {
    forall v :: v in primes ==> v in primes' && primes'[v] == primes[v]
  }

  /** Distinct variables have distinct primes, none of which is an unprimed variable. */
  lemma PrimeInjective(c: Aig, primes: map<int, int>, size: int, v: int, w: int)
    requires PrimesOk(c, primes, size) && Primed(c, primes, v) && Primed(c, primes, w)
    ensures PrimeOf(c, primes, v) == PrimeOf(c, primes, w) ==> v == w
    ensures v != 1 ==> MaxVar(c) < PrimeOf(c, primes, v) < size
  {
  }

  // ----- what an encoding of the step must say -----

  ghost predicate CurrentMeaning(c: Aig, m: set<int>, cons: bool)
    requires WellFormed(c)
  {
    && !Bad(c, m)
    && (cons ==> Constrained(c, m))
    && Follows(c, m, Unprime(c, m))
    && (forall k :: 0 <= k < |c.constraints| ==> (Holds(m, c.constraints[k]) <==> Value(c, m, c.constraints[k])))
  }

  ghost predicate StepMeaning(c: Aig, m: set<int>, badPrime: int, consPrimes: seq<int>, cons: bool)
    requires WellFormed(c)
  {
    && CurrentMeaning(c, m, cons)
    && (Holds(m, badPrime) <==> Bad(c, Unprime(c, m)))
    && |consPrimes| == |c.constraints|
    && (forall k :: 0 <= k < |c.constraints| ==> (Holds(m, consPrimes[k]) <==> Value(c, Unprime(c, m), c.constraints[k])))
  }

  ghost predicate Describes(c: Aig, m: set<int>, e: set<int>, e': set<int>, nv: int)
    requires WellFormed(c)
  {
    && Consistent(c, m)
    && SameLeaves(c, m, e)
    && SameLeaves(c, Unprime(c, m), e')
    && (forall v :: v in m ==> 1 <= v <= nv)
  }

  /** Exactness: every model reads as a transition from a state that is not bad, and every such
      transition is described by a model that also carries all gate values. */
  ghost predicate EncodesStep(c: Aig, f: set<Clause>, nv: int, badPrime: int, consPrimes: seq<int>, cons: bool)
    requires WellFormed(c)
  {
    && AllWithin(f, nv)
    && FirstPrime(c) + c.inputs + c.latches - 1 <= nv
    && IsLit(badPrime, nv)
    && |consPrimes| == |c.constraints|
    && (forall k :: 0 <= k < |consPrimes| ==> IsLit(consPrimes[k], nv))
    && (forall m :: Models(m, f) ==> StepMeaning(c, m, badPrime, consPrimes, cons))
    && (forall e, e' :: !Bad(c, e) && (cons ==> Constrained(c, e)) && Follows(c, e, e') ==>
          exists m :: Models(m, f) && Describes(c, m, e, e', nv))
  }

  // ----- latch links -----

  function LinkClauses(c: Aig, k: int): set<Clause>
    requires WellFormed(c) && 0 <= k < c.latches
  {
    var p := PrimeLeaf(c, LatchVar(c, k));
    {{-p, c.nexts[k]}, {-c.nexts[k], p}}
  }

  lemma LinkMeaning(c: Aig, k: int, m: set<int>)
    requires WellFormed(c) && 0 <= k < c.latches
    ensures Models(m, LinkClauses(c, k)) <==> (LatchVar(c, k) in Unprime(c, m) <==> Holds(m, c.nexts[k]))
  {
    var p := PrimeLeaf(c, LatchVar(c, k));
    var n := c.nexts[k];
    var c1: Clause, c2: Clause := {-p, n}, {-n, p};
    assert LinkClauses(c, k) == {c1, c2};
    assert Satisfies(m, c1) <==> (p !in m || Holds(m, n)) by {
      assert -p in c1 && n in c1;
    }
    assert Satisfies(m, c2) <==> (p in m || !Holds(m, n)) by {
      assert -n in c2 && p in c2;
    }
  }

  ghost predicate Links(c: Aig, upto: int, f: set<Clause>)
    requires WellFormed(c) && upto <= c.latches
  {
    && (forall k :: 0 <= k < upto ==> LinkClauses(c, k) <= f)
    && (forall cl :: cl in f ==> exists k :: 0 <= k < upto && cl in LinkClauses(c, k))
  }

  lemma LinksStep(c: Aig, k: int, f: set<Clause>)
    requires WellFormed(c) && 0 <= k < c.latches && Links(c, k, f)
    ensures Links(c, k + 1, f + LinkClauses(c, k))
  {
    hide LinkClauses;
    forall cl | cl in f + LinkClauses(c, k)
      ensures exists j :: 0 <= j < k + 1 && cl in LinkClauses(c, j)
    {
      if cl in f {
        var j :| 0 <= j < k && cl in LinkClauses(c, j);
        assert 0 <= j < k + 1;
      }
    }
  }

  // ----- primed gates -----

  predicate GatePrimed(c: Aig, primes: map<int, int>, a: And) {
    Primed(c, primes, a.o) && Primed(c, primes, Abs(a.i1)) && Primed(c, primes, Abs(a.i2))
  }

  function PrimedClauses(c: Aig, primes: map<int, int>, a: And): set<Clause>
    requires GatePrimed(c, primes, a)
  {
    GateClauses(PrimeOf(c, primes, a.o), PrimeLit(c, primes, a.i1), PrimeLit(c, primes, a.i2))
  }

  ghost predicate PrimedFrom(c: Aig, primes: map<int, int>, from: int, cone: set<int>, f: set<Clause>)
    requires WellFormed(c)
  {
    && (forall v :: v in cone ==> 1 <= v <= MaxVar(c))
    && (forall k :: from <= k < |c.ands| && 0 <= k && c.ands[k].o in cone ==>
          && Abs(c.ands[k].i1) in cone
          && Abs(c.ands[k].i2) in cone
          && GatePrimed(c, primes, c.ands[k])
          && PrimedClauses(c, primes, c.ands[k]) <= f)
  }

  ghost predicate OnlyPrimedGates(c: Aig, primes: map<int, int>, f: set<Clause>) {
    forall cl :: cl in f ==>
      exists k :: 0 <= k < |c.ands| && GatePrimed(c, primes, c.ands[k]) && cl in PrimedClauses(c, primes, c.ands[k])
  }

  lemma {:induction false} PrimedSound(c: Aig, primes: map<int, int>, size: int, cone: set<int>,
                                       f: set<Clause>, m: set<int>, v: int)
    requires WellFormed(c) && PrimesOk(c, primes, size) && PrimedFrom(c, primes, 0, cone, f)
    requires v in cone && Primed(c, primes, v) && Models(m, f) && 1 !in m
    ensures PrimeOf(c, primes, v) in m <==> Eval(c, Unprime(c, m), v)
    decreases v
  {
    hide GateClauses, Models, Satisfies;
    if v > Leaves(c) {
      var g := c.ands[v - Leaves(c) - 1];
      assert g.o == v;
      PrimeInjective(c, primes, size, g.o, g.o);
      PrimeInjective(c, primes, size, Abs(g.i1), Abs(g.i2));
      PrimeInjective(c, primes, size, Abs(g.i2), Abs(g.i1));
      ModelsSubset(m, PrimedClauses(c, primes, g), f);
      GateMeaning(m, PrimeOf(c, primes, g.o), PrimeLit(c, primes, g.i1), PrimeLit(c, primes, g.i2));
      PrimedSound(c, primes, size, cone, f, m, Abs(g.i1));
      PrimedSound(c, primes, size, cone, f, m, Abs(g.i2));
    }
  }

  lemma PrimedStep(c: Aig, primes: map<int, int>, primes': map<int, int>, k: int,
                   cone: set<int>, f: set<Clause>, cone': set<int>, f': set<Clause>)
    requires WellFormed(c) && 0 <= k < |c.ands| && PrimedFrom(c, primes, k + 1, cone, f)
    requires Extends(primes, primes') && GatePrimed(c, primes', c.ands[k])
    requires c.ands[k].o in cone
    requires cone' == cone + {Abs(c.ands[k].i1), Abs(c.ands[k].i2)}
    requires f + PrimedClauses(c, primes', c.ands[k]) <= f'
    ensures PrimedFrom(c, primes', k, cone', f')
  {
    hide GateClauses;
    forall j | k <= j < |c.ands| && c.ands[j].o in cone'
      ensures Abs(c.ands[j].i1) in cone' && Abs(c.ands[j].i2) in cone'
      ensures GatePrimed(c, primes', c.ands[j]) && PrimedClauses(c, primes', c.ands[j]) <= f'
    {
      assert c.ands[j].o == Leaves(c) + 1 + j && c.ands[k].o == Leaves(c) + 1 + k;
      if j > k {
        assert c.ands[j].o in cone;
        assert PrimedClauses(c, primes', c.ands[j]) == PrimedClauses(c, primes, c.ands[j]);
      }
    }
  }

  lemma OnlyPrimedStep(c: Aig, primes: map<int, int>, primes': map<int, int>, f: set<Clause>, k: int)
    requires OnlyPrimedGates(c, primes, f) && Extends(primes, primes')
    requires 0 <= k < |c.ands| && GatePrimed(c, primes', c.ands[k])
    ensures OnlyPrimedGates(c, primes', f + PrimedClauses(c, primes', c.ands[k]))
  {
    hide GateClauses;
    forall cl | cl in f + PrimedClauses(c, primes', c.ands[k])
      ensures exists j :: 0 <= j < |c.ands| && GatePrimed(c, primes', c.ands[j]) && cl in PrimedClauses(c, primes', c.ands[j])
    {
      if cl in f {
        var j :| 0 <= j < |c.ands| && GatePrimed(c, primes, c.ands[j]) && cl in PrimedClauses(c, primes, c.ands[j]);
        assert PrimedClauses(c, primes', c.ands[j]) == PrimedClauses(c, primes, c.ands[j]);
      }
    }
  }

  // ----- the model that describes a given transition -----

  ghost function PrimedPart(c: Aig, primes: map<int, int>, e: set<int>): set<int>
    requires WellFormed(c)
  {
    set v: int | v in UpTo(MaxVar(c)) && v >= 2 && Primed(c, primes, v) && Eval(c, e, v) :: PrimeOf(c, primes, v)
  }

  ghost function Joint(c: Aig, primes: map<int, int>, e: set<int>, e': set<int>): set<int>
    requires WellFormed(c)
  {
    Completion(c, e) + PrimedPart(c, primes, e')
  }

  lemma JointUnprimed(c: Aig, primes: map<int, int>, size: int, e: set<int>, e': set<int>)
    requires WellFormed(c) && PrimesOk(c, primes, size)
    ensures var j := Joint(c, primes, e, e');
      && SameLeaves(c, j, e) && Consistent(c, j)
      && forall v :: v in j ==> 1 <= v < size
  {
    var j := Joint(c, primes, e, e');
    forall x | x in PrimedPart(c, primes, e')
      ensures MaxVar(c) < x < size
    {
      var v :| v in UpTo(MaxVar(c)) && v >= 2 && Primed(c, primes, v) && Eval(c, e', v) && x == PrimeOf(c, primes, v);
      PrimeInjective(c, primes, size, v, v);
    }
    assert forall v :: 1 <= v <= MaxVar(c) ==> (v in j <==> Eval(c, e, v));
    assert SameLeaves(c, j, e);
    forall v | 1 <= v <= MaxVar(c)
      ensures v in j <==> Eval(c, j, v)
    {
      EvalSame(c, j, e, v);
    }
  }

  lemma JointPrimed(c: Aig, primes: map<int, int>, size: int, e: set<int>, e': set<int>, v: int)
    requires WellFormed(c) && PrimesOk(c, primes, size)
    requires 1 <= v <= MaxVar(c) && Primed(c, primes, v)
    ensures PrimeOf(c, primes, v) in Joint(c, primes, e, e') <==> Eval(c, e', v)
  {
    var p := PrimeOf(c, primes, v);
    PrimeInjective(c, primes, size, v, v);
    if p in PrimedPart(c, primes, e') {
      var w :| w in UpTo(MaxVar(c)) && w >= 2 && Primed(c, primes, w) && Eval(c, e', w) && p == PrimeOf(c, primes, w);
      PrimeInjective(c, primes, size, v, w);
    }
    if v >= 2 && Eval(c, e', v) {
      assert v in UpTo(MaxVar(c));
      assert p in PrimedPart(c, primes, e');
    }
  }

  lemma JointDescribes(c: Aig, primes: map<int, int>, size: int, e: set<int>, e': set<int>)
    requires WellFormed(c) && PrimesOk(c, primes, size)
    ensures Describes(c, Joint(c, primes, e, e'), e, e', size - 1)
  {
    var j := Joint(c, primes, e, e');
    JointUnprimed(c, primes, size, e, e');
    forall v | 2 <= v <= Leaves(c)
      ensures v in Unprime(c, j) <==> v in e'
    {
      JointPrimed(c, primes, size, e, e', v);
    }
  }

  lemma JointPrimedGate(c: Aig, primes: map<int, int>, size: int, e: set<int>, e': set<int>, k: int)
    requires WellFormed(c) && PrimesOk(c, primes, size) && 0 <= k < |c.ands| && GatePrimed(c, primes, c.ands[k])
    ensures Models(Joint(c, primes, e, e'), PrimedClauses(c, primes, c.ands[k]))
  {
    hide GateClauses, Satisfies, Models, Joint, PrimedPart, UpTo, Completion;
    var m := Joint(c, primes, e, e');
    var g := c.ands[k];
    assert g.o == Leaves(c) + 1 + k;
    PrimeInjective(c, primes, size, g.o, g.o);
    PrimeInjective(c, primes, size, Abs(g.i1), Abs(g.i2));
    PrimeInjective(c, primes, size, Abs(g.i2), Abs(g.i1));
    JointPrimed(c, primes, size, e, e', g.o);
    JointPrimed(c, primes, size, e, e', Abs(g.i1));
    JointPrimed(c, primes, size, e, e', Abs(g.i2));
    GateMeaning(m, PrimeOf(c, primes, g.o), PrimeLit(c, primes, g.i1), PrimeLit(c, primes, g.i2));
  }

  lemma JointPrimedGates(c: Aig, primes: map<int, int>, size: int, e: set<int>, e': set<int>, f: set<Clause>)
    requires WellFormed(c) && PrimesOk(c, primes, size) && OnlyPrimedGates(c, primes, f)
    ensures Models(Joint(c, primes, e, e'), f)
  {
    hide PrimedClauses, Satisfies, Joint;
    forall cl | cl in f
      ensures Satisfies(Joint(c, primes, e, e'), cl)
    {
      var k :| 0 <= k < |c.ands| && GatePrimed(c, primes, c.ands[k]) && cl in PrimedClauses(c, primes, c.ands[k]);
      JointPrimedGate(c, primes, size, e, e', k);
    }
  }

  // ----- exactness of the assembled formula -----

  ghost predicate Assembled(c: Aig, primes: map<int, int>, size: int, cone: set<int>, primedCone: set<int>,
                            fixed: set<int>, links: set<Clause>, gates: set<Clause>, primedGates: set<Clause>, cons: bool)
    requires WellFormed(c)
  {
    && PrimesOk(c, primes, size)
    && fixed == {-1, -c.bad} + (if cons then Range(c.constraints) else {})
    && Links(c, c.latches, links)
    && ConeFrom(c, 0, cone, gates) && OnlyGates(c, gates)
    && PrimedFrom(c, primes, 0, primedCone, primedGates) && OnlyPrimedGates(c, primes, primedGates)
    && Abs(c.bad) in cone && Vars(Range(c.constraints)) <= cone && Vars(Range(c.nexts)) <= cone
    && Abs(c.bad) in primedCone && Vars(Range(c.constraints)) <= primedCone
    && Primed(c, primes, Abs(c.bad))
    && (forall k :: 0 <= k < |c.constraints| ==> Primed(c, primes, Abs(c.constraints[k])))
  }

  ghost function ConsPrimes(c: Aig, primes: map<int, int>): seq<int>
    requires forall k :: 0 <= k < |c.constraints| ==> Primed(c, primes, Abs(c.constraints[k]))
  {
    seq(|c.constraints|, k requires 0 <= k < |c.constraints| => PrimeLit(c, primes, c.constraints[k]))
  }

  lemma ConeValues(c: Aig, cone: set<int>, gates: set<Clause>, m: set<int>, ls: seq<int>)
    requires WellFormed(c) && ConeFrom(c, 0, cone, gates) && Models(m, gates) && 1 !in m
    requires Vars(Range(ls)) <= cone && forall k :: 0 <= k < |ls| ==> IsLit(ls[k], MaxVar(c))
    ensures forall k :: 0 <= k < |ls| ==> (Holds(m, ls[k]) <==> Value(c, m, ls[k]))
  {
    hide ConeFrom, Models, Eval;
    forall k | 0 <= k < |ls|
      ensures Holds(m, ls[k]) <==> Value(c, m, ls[k])
    {
      assert ls[k] in Range(ls);
      assert Abs(ls[k]) in Vars(Range(ls));
      ConeSound(c, cone, gates, m, Abs(ls[k]));
    }
  }

  lemma LinksFollow(c: Aig, links: set<Clause>, m: set<int>)
    requires WellFormed(c) && Links(c, c.latches, links)
    requires forall k :: 0 <= k < |c.nexts| ==> (Holds(m, c.nexts[k]) <==> Value(c, m, c.nexts[k]))
    ensures Models(m, links) <==> Follows(c, m, Unprime(c, m))
  {
    hide LinkClauses, Satisfies, Unprime, Eval, Value;
    forall k | 0 <= k < c.latches
      ensures Models(m, LinkClauses(c, k)) <==> (LatchVar(c, k) in Unprime(c, m) <==> Value(c, m, c.nexts[k]))
    {
      LinkMeaning(c, k, m);
    }
  }

  lemma PartsModel(m: set<int>, fixed: set<int>, links: set<Clause>, gates: set<Clause>, primedGates: set<Clause>)
    ensures Models(m, Units(fixed) + links + gates + primedGates)
            <==> AllHold(m, fixed) && Models(m, links) && Models(m, gates) && Models(m, primedGates)
  {
    hide Units, Satisfies;
    UnitsMeaning(m, fixed);
  }

  lemma AssembledUnprimed(c: Aig, primes: map<int, int>, size: int, cone: set<int>, primedCone: set<int>,
                          fixed: set<int>, links: set<Clause>, gates: set<Clause>, primedGates: set<Clause>, cons: bool, m: set<int>)
    requires WellFormed(c) && Assembled(c, primes, size, cone, primedCone, fixed, links, gates, primedGates, cons)
    requires Models(m, Units(fixed) + links + gates + primedGates)
    ensures 1 !in m && CurrentMeaning(c, m, cons)
  {
    hide Links, Satisfies, OnlyGates, OnlyPrimedGates, Units, PrimedFrom, PrimesOk, Unprime, ConeFrom, Models, Follows, Primed, Eval, Vars;
    PartsModel(m, fixed, links, gates, primedGates);
    assert Holds(m, -1) && Holds(m, -c.bad);
    ConeSound(c, cone, gates, m, Abs(c.bad));
    ConeValues(c, cone, gates, m, c.constraints);
    ConeValues(c, cone, gates, m, c.nexts);
    if cons {
      assert AllHold(m, Range(c.constraints));
      ConstraintsHold(c, m);
    }
    LinksFollow(c, links, m);
  }

  lemma AssembledSound(c: Aig, primes: map<int, int>, size: int, cone: set<int>, primedCone: set<int>,
                       fixed: set<int>, links: set<Clause>, gates: set<Clause>, primedGates: set<Clause>, cons: bool, m: set<int>)
    requires WellFormed(c) && Assembled(c, primes, size, cone, primedCone, fixed, links, gates, primedGates, cons)
    requires Models(m, Units(fixed) + links + gates + primedGates)
    ensures StepMeaning(c, m, PrimeLit(c, primes, c.bad), ConsPrimes(c, primes), cons)
  {
    hide LinkClauses, Satisfies, OnlyGates, OnlyPrimedGates, Units, ConeFrom, Links, Unprime;
    AssembledUnprimed(c, primes, size, cone, primedCone, fixed, links, gates, primedGates, cons, m);
    ModelsUnion(m, Units(fixed) + links + gates, primedGates);
    forall l | Abs(l) in primedCone && l != 0 && Primed(c, primes, Abs(l))
      ensures Holds(m, PrimeLit(c, primes, l)) <==> Value(c, Unprime(c, m), l)
    {
      PrimedSound(c, primes, size, primedCone, primedGates, m, Abs(l));
      PrimeInjective(c, primes, size, Abs(l), Abs(l));
    }
    forall k | 0 <= k < |c.constraints|
      ensures Holds(m, ConsPrimes(c, primes)[k]) <==> Value(c, Unprime(c, m), c.constraints[k])
    {
      assert c.constraints[k] in Range(c.constraints);
      assert Abs(c.constraints[k]) in Vars(Range(c.constraints));
    }
  }

  lemma AssembledComplete(c: Aig, primes: map<int, int>, size: int, cone: set<int>, primedCone: set<int>,
                          fixed: set<int>, links: set<Clause>, gates: set<Clause>, primedGates: set<Clause>, cons: bool,
                          e: set<int>, e': set<int>)
    requires WellFormed(c) && Assembled(c, primes, size, cone, primedCone, fixed, links, gates, primedGates, cons)
    requires !Bad(c, e) && (cons ==> Constrained(c, e)) && Follows(c, e, e')
    ensures Models(Joint(c, primes, e, e'), Units(fixed) + links + gates + primedGates)
  {
    hide Links, Satisfies, Models, OnlyGates, OnlyPrimedGates, Units, ConeFrom, PrimedFrom, Joint, PrimesOk, Primed, Unprime;
    var m := Joint(c, primes, e, e');
    JointDescribes(c, primes, size, e, e');
    SemanticsSame(c, m, e);
    SemanticsSame(c, Unprime(c, m), e');
    forall l | IsLit(l, MaxVar(c))
      ensures Holds(m, l) <==> Value(c, m, l)
    {
      ConsistentHolds(c, m, l);
    }
    ConstraintsHold(c, m);
    assert !Eval(c, m, 1);
    assert AllHold(m, fixed);
    LinksFollow(c, links, m);
    GatesComplete(c, gates, m);
    JointPrimedGates(c, primes, size, e, e', primedGates);
    PartsModel(m, fixed, links, gates, primedGates);
  }

  lemma LinkWithin(c: Aig, k: int, n: int)
    requires WellFormed(c) && 0 <= k < c.latches && n >= FirstPrime(c) + c.inputs + c.latches - 1
    ensures AllWithin(LinkClauses(c, k), n)
  {
    var p, q := PrimeLeaf(c, LatchVar(c, k)), c.nexts[k];
    assert IsLit(p, n) && IsLit(q, n);
    assert LinkClauses(c, k) == {{-p, q}, {-q, p}};
  }

  lemma LinksWithin(c: Aig, links: set<Clause>, n: int)
    requires WellFormed(c) && Links(c, c.latches, links) && n >= FirstPrime(c) + c.inputs + c.latches - 1
    ensures AllWithin(links, n)
  {
    hide LinkClauses, Within;
    forall k | 0 <= k < c.latches
      ensures AllWithin(LinkClauses(c, k), n)
    {
      LinkWithin(c, k, n);
    }
  }

  lemma PrimedWithin(c: Aig, primes: map<int, int>, size: int, f: set<Clause>)
    requires WellFormed(c) && PrimesOk(c, primes, size) && OnlyPrimedGates(c, primes, f)
    ensures AllWithin(f, size - 1)
  {
    hide PrimesOk, Within, GatePrimed, PrimedClauses, WellFormed;
    forall cl | cl in f
      ensures Within(cl, size - 1)
    {
      var k :| 0 <= k < |c.ands| && GatePrimed(c, primes, c.ands[k]) && cl in PrimedClauses(c, primes, c.ands[k]);
      PrimedGateWithin(c, primes, size, k);
    }
  }

  lemma PrimedGateWithin(c: Aig, primes: map<int, int>, size: int, k: int)
    requires WellFormed(c) && PrimesOk(c, primes, size) && 0 <= k < |c.ands| && GatePrimed(c, primes, c.ands[k])
    ensures AllWithin(PrimedClauses(c, primes, c.ands[k]), size - 1)
  {
    hide PrimesOk, Within, GateClauses;
    var g := c.ands[k];
    assert g.o == Leaves(c) + 1 + k;
    PrimeInjective(c, primes, size, g.o, g.o);
    PrimeInjective(c, primes, size, Abs(g.i1), Abs(g.i2));
    PrimeInjective(c, primes, size, Abs(g.i2), Abs(g.i1));
    GateWithin(PrimeOf(c, primes, g.o), PrimeLit(c, primes, g.i1), PrimeLit(c, primes, g.i2), size - 1);
  }

  lemma GateWithin(o: int, a: int, b: int, n: int)
    requires IsLit(o, n) && IsLit(a, n) && IsLit(b, n)
    ensures AllWithin(GateClauses(o, a, b), n)
  {
  }

  lemma AssembledEncodes(c: Aig, primes: map<int, int>, size: int, cone: set<int>, primedCone: set<int>,
                         fixed: set<int>, links: set<Clause>, gates: set<Clause>, primedGates: set<Clause>, cons: bool)
    requires WellFormed(c) && Assembled(c, primes, size, cone, primedCone, fixed, links, gates, primedGates, cons)
    ensures EncodesStep(c, Units(fixed) + links + gates + primedGates, size - 1, PrimeLit(c, primes, c.bad), ConsPrimes(c, primes), cons)
  {
    hide StepMeaning, Describes, Links, OnlyGates, OnlyPrimedGates, ConeFrom, PrimedFrom, Models, PrimesOk, Follows, Bad, Constrained;
    var f := Units(fixed) + links + gates + primedGates;
    assert AllWithin(f, size - 1) by {
      GatesWithin(c, gates);
      PrimesSize(c, primes, size);
      LinksWithin(c, links, size - 1);
      PrimedWithin(c, primes, size, primedGates);
    }
    forall m | Models(m, f)
      ensures StepMeaning(c, m, PrimeLit(c, primes, c.bad), ConsPrimes(c, primes), cons)
    {
      AssembledSound(c, primes, size, cone, primedCone, fixed, links, gates, primedGates, cons, m);
    }
    forall e, e' | !Bad(c, e) && (cons ==> Constrained(c, e)) && Follows(c, e, e')
      ensures exists m :: Models(m, f) && Describes(c, m, e, e', size - 1)
    {
      AssembledComplete(c, primes, size, cone, primedCone, fixed, links, gates, primedGates, cons, e, e');
      JointDescribes(c, primes, size, e, e');
    }
    PrimeLitsInRange(c, primes, size);
    PrimesSize(c, primes, size);
  }

  lemma PrimesSize(c: Aig, primes: map<int, int>, size: int)
    requires PrimesOk(c, primes, size)
    ensures FirstPrime(c) + c.inputs + c.latches <= size
  {
  }

  // ----- simplification keeps the meaning -----

  /** Variables the preprocessor must not eliminate. */
  function Frozen(c: Aig, badPrime: int, consPrimes: seq<int>): set<int> {
    (set v | v in UpTo(Leaves(c)) && v >= 2)
    + (set v | v in UpTo(Leaves(c)) && v >= 2 :: LeafPrime(c, v))
    + {Abs(c.bad), Abs(badPrime)} + Vars(Range(c.constraints)) + Vars(Range(consPrimes))
  }

  lemma FrozenMeaning(c: Aig, m: set<int>, w: set<int>, badPrime: int, consPrimes: seq<int>, cons: bool)
    requires WellFormed(c) && badPrime != 0 && (forall k :: 0 <= k < |consPrimes| ==> consPrimes[k] != 0)
    requires AgreeOn(m, w, Frozen(c, badPrime, consPrimes))
    requires StepMeaning(c, w, badPrime, consPrimes, cons)
    ensures StepMeaning(c, m, badPrime, consPrimes, cons)
  {
    forall v | 2 <= v <= Leaves(c)
      ensures v in m <==> v in w
    {
      assert v in Frozen(c, badPrime, consPrimes);
    }
    forall v | 2 <= v <= Leaves(c)
      ensures LeafPrime(c, v) in m <==> LeafPrime(c, v) in w
    {
      assert v in UpTo(Leaves(c));
      assert LeafPrime(c, v) in Frozen(c, badPrime, consPrimes);
    }
    assert SameLeaves(c, m, w) && SameLeaves(c, Unprime(c, m), Unprime(c, w));
    SemanticsSame(c, m, w);
    SemanticsSame(c, Unprime(c, m), Unprime(c, w));
    assert Abs(badPrime) in Frozen(c, badPrime, consPrimes);
    forall k | 0 <= k < |c.constraints|
      ensures Holds(m, c.constraints[k]) <==> Value(c, m, c.constraints[k])
      ensures Holds(m, consPrimes[k]) <==> Value(c, Unprime(c, m), c.constraints[k])
    {
      assert c.constraints[k] in Range(c.constraints) && consPrimes[k] in Range(consPrimes);
      assert Abs(c.constraints[k]) in Frozen(c, badPrime, consPrimes);
      assert Abs(consPrimes[k]) in Frozen(c, badPrime, consPrimes);
      EvalSame(c, m, w, Abs(c.constraints[k]));
      EvalSame(c, Unprime(c, m), Unprime(c, w), Abs(c.constraints[k]));
    }
  }

  /** Variable elimination outside the frozen variables leaves the encoding exact. */
  lemma SimplifiedEncodes(c: Aig, f: set<Clause>, g: set<Clause>, nv: int, badPrime: int, consPrimes: seq<int>, cons: bool)
    requires WellFormed(c) && EncodesStep(c, f, nv, badPrime, consPrimes, cons)
    requires AllWithin(g, nv) && Projects(f, g, Frozen(c, badPrime, consPrimes))
    ensures EncodesStep(c, g, nv, badPrime, consPrimes, cons)
  {
    hide Frozen, StepMeaning, Describes, Models, AgreeOn;
    forall m | Models(m, g)
      ensures StepMeaning(c, m, badPrime, consPrimes, cons)
    {
      var w :| Models(w, f) && AgreeOn(m, w, Frozen(c, badPrime, consPrimes));
      FrozenMeaning(c, m, w, badPrime, consPrimes, cons);
    }
    forall e, e' | !Bad(c, e) && (cons ==> Constrained(c, e)) && Follows(c, e, e')
      ensures exists m :: Models(m, g) && Describes(c, m, e, e', nv)
    {
      var m :| Models(m, f) && Describes(c, m, e, e', nv);
      assert Models(m, g);
    }
  }

  // ----- the encoder -----

  class Encoder {
    const c: Aig
    var primes: map<int, int>
    var size: nat
    var badPrime: int
    var consPrimes: seq<int>

    ghost predicate Allocated()
      reads this
    {
      WellFormed(c) && PrimesOk(c, primes, size)
    }

    /** Primes of bad and of all constraints exist. */
    ghost predicate Valid()
      reads this
    {
      && Allocated()
      && Primed(c, primes, Abs(c.bad)) && badPrime == PrimeLit(c, primes, c.bad)
      && (forall k :: 0 <= k < |c.constraints| ==> Primed(c, primes, Abs(c.constraints[k])))
      && consPrimes == ConsPrimes(c, primes)
    }

    constructor (circuit: Aig)
      requires WellFormed(circuit)
      ensures Valid() && c == circuit
    {
      c := circuit;
      primes := map[];
      size := FirstPrime(circuit) + circuit.inputs + circuit.latches;
      badPrime := 0;
      consPrimes := [];
      new;
      var b := AllocateLit(c.bad);
      badPrime := b;
      var k := 0;
      while k < |c.constraints|
        invariant 0 <= k <= |c.constraints| == |c.constraints|
        invariant Allocated() && Primed(c, primes, Abs(c.bad)) && badPrime == PrimeLit(c, primes, c.bad)
        invariant |consPrimes| == k
        invariant forall j :: 0 <= j < k ==> Primed(c, primes, Abs(c.constraints[j]))
        invariant forall j :: 0 <= j < k ==> consPrimes[j] == PrimeLit(c, primes, c.constraints[j])
      {
        var p := AllocateLit(c.constraints[k]);
        consPrimes := consPrimes + [p];
        k := k + 1;
      }
    }

    method Allocate(v: int) returns (p: int)
      requires Allocated() && 1 <= v <= MaxVar(c)
      modifies this`primes, this`size
      ensures Allocated() && Extends(old(primes), primes) && old(size) <= size
      ensures Primed(c, primes, v) && p == PrimeOf(c, primes, v)
    {
      if v > 1 {
        if v <= Leaves(c) {
          p := LeafPrime(c, v);
        } else if v !in primes {
          p := size;
          primes := primes[v := p];
          size := size + 1;
        } else {
          p := primes[v];
        }
      } else {
        p := v;
      }
    }

    method AllocateLit(l: int) returns (p: int)
      requires Allocated() && IsLit(l, MaxVar(c))
      modifies this`primes, this`size
      ensures Allocated() && Extends(old(primes), primes) && old(size) <= size
      ensures Primed(c, primes, Abs(l)) && p == PrimeLit(c, primes, l)
    {
      if l >= 0 {
        p := Allocate(l);
      } else {
        var q := Allocate(-l);
        p := -q;
      }
    }

    method EncodeLinks() returns (links: set<Clause>)
      requires Allocated()
      ensures Links(c, c.latches, links)
    {
      links := {};
      var k := 0;
      hide LinkClauses;
      while k < c.latches
        invariant 0 <= k <= c.latches
        invariant Links(c, k, links)
      {
        LinksStep(c, k, links);
        links := links + LinkClauses(c, k);
        k := k + 1;
      }
    }

    /** Walks the gates backward, growing the cone of all roots and the primed cone of bad and
        constraints, and collects the clauses of both. */
    method EncodeCones() returns (cone: set<int>, primedCone: set<int>, gates: set<Clause>, primedGates: set<Clause>)
      requires Valid()
      modifies this`primes, this`size
      ensures Valid()
      ensures ConeFrom(c, 0, cone, gates) && OnlyGates(c, gates)
      ensures PrimedFrom(c, primes, 0, primedCone, primedGates) && OnlyPrimedGates(c, primes, primedGates)
      ensures {Abs(c.bad)} + Vars(Range(c.constraints)) + Vars(Range(c.nexts)) <= cone
      ensures {Abs(c.bad)} + Vars(Range(c.constraints)) <= primedCone
    {
      hide ConeFrom, PrimedFrom, OnlyGates, OnlyPrimedGates, GateClauses, Vars, Range;
      primedCone := {Abs(c.bad)} + Vars(Range(c.constraints));
      cone := primedCone + Vars(Range(c.nexts));
      gates, primedGates := {}, {};
      ghost var roots, primedRoots := cone, primedCone;
      RootsStart(c, primes);
      var k := |c.ands|;
      while k > 0
        invariant 0 <= k <= |c.ands|
        invariant Valid()
        invariant roots <= cone && primedRoots <= primedCone
        invariant ConeFrom(c, k, cone, gates) && OnlyGates(c, gates)
        invariant PrimedFrom(c, primes, k, primedCone, primedGates) && OnlyPrimedGates(c, primes, primedGates)
        invariant primedCone <= cone
      {
        k := k - 1;
        var a := c.ands[k];
        assert a.o == Leaves(c) + 1 + k;
        if a.o in cone {
          ConeStep(c, k, cone, gates, cone + {Abs(a.i1), Abs(a.i2)}, gates + ClausesOf(a));
          OnlyGatesStep(c, gates, k);
          cone := cone + {Abs(a.i1), Abs(a.i2)};
          gates := gates + ClausesOf(a);
          if a.o in primedCone {
            primedCone, primedGates := PrimeGate(k, primedCone, primedGates);
          } else {
            SkipPrimedGate(c, primes, k, primedCone, primedGates);
          }
        } else {
          SkipGate(c, k, cone, gates);
          SkipPrimedGate(c, primes, k, primedCone, primedGates);
        }
      }
    }

    method PrimeGate(k: int, cone: set<int>, f: set<Clause>) returns (cone': set<int>, f': set<Clause>)
      requires Valid() && 0 <= k < |c.ands| && c.ands[k].o in cone
      requires PrimedFrom(c, primes, k + 1, cone, f) && OnlyPrimedGates(c, primes, f)
      modifies this`primes, this`size
      ensures Valid() && cone' == cone + {Abs(c.ands[k].i1), Abs(c.ands[k].i2)}
      ensures PrimedFrom(c, primes, k, cone', f') && OnlyPrimedGates(c, primes, f')
    {
      hide PrimedFrom, OnlyPrimedGates, GateClauses;
      var a := c.ands[k];
      assert a.o == Leaves(c) + 1 + k;
      ghost var primes0 := primes;
      var po := Allocate(a.o);
      var p1 := AllocateLit(a.i1);
      var p2 := AllocateLit(a.i2);
      cone' := cone + {Abs(a.i1), Abs(a.i2)};
      f' := f + GateClauses(po, p1, p2);
      assert Extends(primes0, primes);
      PrimedStep(c, primes0, primes, k, cone, f, cone', f');
      OnlyPrimedStep(c, primes0, primes, f, k);
    }

    /** The transition relation; with `cons` the current state must meet the constraints. */
    method EncodeStep(cons: bool) returns (g: set<Clause>)
      requires Valid()
      modifies this`primes, this`size
      ensures Valid() && EncodesStep(c, g, size - 1, badPrime, consPrimes, cons)
    {
      hide ConeFrom, PrimedFrom, OnlyGates, OnlyPrimedGates, Models, Links, Projects, Frozen, StepMeaning, Describes, Vars, Range;
      var fixed := {-1, -c.bad} + (if cons then Range(c.constraints) else {});
      var links := EncodeLinks();
      var cone, primedCone, gates, primedGates := EncodeCones();
      assert Assembled(c, primes, size, cone, primedCone, fixed, links, gates, primedGates, cons);
      var f := Units(fixed) + links + gates + primedGates;
      AssembledEncodes(c, primes, size, cone, primedCone, fixed, links, gates, primedGates, cons);
      g := Simplify(f, Frozen(c, badPrime, consPrimes), size - 1);
      SimplifiedEncodes(c, f, g, size - 1, badPrime, consPrimes, cons);
    }
  }

  lemma RootsStart(c: Aig, primes: map<int, int>)
    requires WellFormed(c)
    ensures ConeFrom(c, |c.ands|, {Abs(c.bad)} + Vars(Range(c.constraints)) + Vars(Range(c.nexts)), {}) && OnlyGates(c, {})
    ensures PrimedFrom(c, primes, |c.ands|, {Abs(c.bad)} + Vars(Range(c.constraints)), {}) && OnlyPrimedGates(c, primes, {})
  {
  }

  lemma SkipGate(c: Aig, k: int, cone: set<int>, f: set<Clause>)
    requires WellFormed(c) && 0 <= k < |c.ands| && ConeFrom(c, k + 1, cone, f) && c.ands[k].o !in cone
    ensures ConeFrom(c, k, cone, f)
  {
  }

  lemma SkipPrimedGate(c: Aig, primes: map<int, int>, k: int, cone: set<int>, f: set<Clause>)
    requires WellFormed(c) && 0 <= k < |c.ands| && PrimedFrom(c, primes, k + 1, cone, f) && c.ands[k].o !in cone
    ensures PrimedFrom(c, primes, k, cone, f)
  {
  }

  lemma PrimeLitsInRange(c: Aig, primes: map<int, int>, size: int)
    requires WellFormed(c) && PrimesOk(c, primes, size) && Primed(c, primes, Abs(c.bad))
    requires forall k :: 0 <= k < |c.constraints| ==> Primed(c, primes, Abs(c.constraints[k]))
    ensures IsLit(PrimeLit(c, primes, c.bad), size - 1)
    ensures forall k :: 0 <= k < |c.constraints| ==> IsLit(ConsPrimes(c, primes)[k], size - 1)
  {
    PrimeInjective(c, primes, size, Abs(c.bad), Abs(c.bad));
    forall k | 0 <= k < |c.constraints|
      ensures IsLit(ConsPrimes(c, primes)[k], size - 1)
    {
      PrimeInjective(c, primes, size, Abs(c.constraints[k]), Abs(c.constraints[k]));
    }
  }
}
