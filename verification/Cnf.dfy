/** Propositional formulas in DIMACS style and the SAT oracle used by both engines.
    A literal is a non-zero integer, a clause a set of literals, a model the set of true variables. */
module Cnf {

  type Clause = set<int>

  function Abs(x: int): nat {
    if x < 0 then -x else x
  }

  predicate Holds(m: set<int>, l: int) {
    if l > 0 then l in m else -l !in m
  }

  predicate AllHold(m: set<int>, ls: set<int>) {
    forall l :: l in ls ==> Holds(m, l)
  }

  predicate Satisfies(m: set<int>, cl: Clause) {
    exists l :: l in cl && Holds(m, l)
  }

  predicate Models(m: set<int>, f: set<Clause>) {
    forall cl :: cl in f ==> Satisfies(m, cl)
  }

  /** All literals of a clause are proper and mention only variables up to `n`. */
  predicate Within(cl: Clause, n: int) {
    forall l :: l in cl ==> l != 0 && Abs(l) <= n
  }

  predicate AllWithin(f: set<Clause>, n: int) {
    forall cl :: cl in f ==> Within(cl, n)
  }

  /** Proper literals, none together with its negation. */
  ghost predicate NoComplement(ls: set<int>) {
    forall l :: l in ls ==> l != 0 && -l !in ls
  }

  function UpTo(n: nat): (vars: set<int>)
    ensures forall v :: v in vars <==> 1 <= v <= n
  {
    if n == 0 then {} else UpTo(n - 1) + {n}
  }

  function GateClauses(o: int, a: int, b: int): set<Clause> {
    {{-o, a}, {-o, b}, {o, -a, -b}}
  }

  function Unit(l: int): Clause {
    {l}
  }

  function Negated(ls: set<int>): Clause {
    set l | l in ls :: -l
  }

  /** The clause of negated literals is true exactly when the cube is false. */
  lemma NegatedSatisfied(m: set<int>, ls: set<int>)
    requires forall l :: l in ls ==> l != 0
    ensures Satisfies(m, Negated(ls)) <==> !AllHold(m, ls)
  {
    if !AllHold(m, ls) {
      var l :| l in ls && !Holds(m, l);
      assert -l in Negated(ls) && Holds(m, -l);
    }
    if Satisfies(m, Negated(ls)) {
      var k :| k in Negated(ls) && Holds(m, k);
      assert -k in ls && !Holds(m, -k);
    }
  }

  /** The three Tseitin clauses of an AND gate say that the output is the conjunction. */
  lemma GateMeaning(m: set<int>, o: int, a: int, b: int)
    requires o > 0 && a != 0 && b != 0
    ensures Models(m, GateClauses(o, a, b)) <==> (o in m <==> Holds(m, a) && Holds(m, b))
  {
    var c1: Clause, c2: Clause, c3: Clause := {-o, a}, {-o, b}, {o, -a, -b};
    assert GateClauses(o, a, b) == {c1, c2, c3};
    assert Satisfies(m, c1) <==> (o !in m || Holds(m, a)) by {
      assert -o in c1 && a in c1;
    }
    assert Satisfies(m, c2) <==> (o !in m || Holds(m, b)) by {
      assert -o in c2 && b in c2;
    }
    assert Satisfies(m, c3) <==> (o in m || !Holds(m, a) || !Holds(m, b)) by {
      assert o in c3 && -a in c3 && -b in c3;
    }
  }

  lemma UnitMeaning(m: set<int>, l: int)
    ensures Satisfies(m, Unit(l)) <==> Holds(m, l)
  {
    assert l in Unit(l);
  }

  lemma ModelsSubset(m: set<int>, f: set<Clause>, g: set<Clause>)
    requires f <= g && Models(m, g)
    ensures Models(m, f)
  {
  }

  function Units(ls: set<int>): set<Clause> {
    set l | l in ls :: Unit(l)
  }

  lemma UnitsMeaning(m: set<int>, ls: set<int>)
    ensures Models(m, Units(ls)) <==> AllHold(m, ls)
  {
    forall l | l in ls
      ensures Unit(l) in Units(ls) && (Satisfies(m, Unit(l)) <==> Holds(m, l))
    {
      UnitMeaning(m, l);
    }
  }

  lemma ModelsUnion(m: set<int>, f: set<Clause>, g: set<Clause>)
    ensures Models(m, f + g) <==> Models(m, f) && Models(m, g)
  {
  }

  /** Satisfaction of a clause depends only on the variables it mentions. */
  lemma SatisfiesAgree(m: set<int>, w: set<int>, cl: Clause, n: int)
    requires Within(cl, n)
    requires forall v :: 1 <= v <= n ==> (v in m <==> v in w)
    ensures Satisfies(m, cl) <==> Satisfies(w, cl)
  {
    assert forall l :: l in cl ==> (Holds(m, l) <==> Holds(w, l));
  }

  lemma ModelsAgree(m: set<int>, w: set<int>, f: set<Clause>, n: int)
    requires AllWithin(f, n)
    requires forall v :: 1 <= v <= n ==> (v in m <==> v in w)
    ensures Models(m, f) <==> Models(w, f)
  {
    forall cl | cl in f
      ensures Satisfies(m, cl) <==> Satisfies(w, cl)
    {
      SatisfiesAgree(m, w, cl, n);
    }
  }

  /** An arbitrary element: iteration order never matters here. */
  method Pick<T>(s: set<T>) returns (x: T)
    requires s != {}
    ensures x in s
  {
    x :| x in s;
  }

  lemma Member<T>(s: set<T>) returns (x: T)
    requires |s| > 0
    ensures x in s
  {
    x :| x in s;
  }

  lemma SameSizeSubset(a: Clause, b: Clause)
    requires a <= b && |a| == |b|
    ensures a == b
  {
    assert b == a + (b - a);
    assert b - a == {};
  }

  datatype Answer = Sat(model: set<int>) | Unsat(core: set<int>)

  ghost predicate Correct(f: set<Clause>, assumed: set<int>, a: Answer) {
    match a
    case Sat(m) => Models(m, f) && AllHold(m, assumed)
    case Unsat(core) => core <= assumed && forall m :: Models(m, f) ==> !AllHold(m, core)
  }

  /** The incremental SAT interface: a model of formula and assumptions, or a set of failed
      assumptions that already contradicts the formula.  The enumeration below is only there to
      show that the contract can be met; callers see the contract alone. */
  method Solve(f: set<Clause>, assumed: set<int>, n: nat) returns (a: Answer)
    requires AllWithin(f, n) && Within(assumed, n)
    ensures Correct(f, assumed, a)
    ensures a.Sat? ==> forall v :: v in a.model ==> 1 <= v <= n
  {
    var vars := UpTo(n);
    if m: set<int> :| m <= vars && Models(m, f) && AllHold(m, assumed) {
      a := Sat(m);
    } else {
      a := Unsat(assumed);
      forall m | Models(m, f)
        ensures !AllHold(m, assumed)
      {
        var w := m * vars;
        assert w <= vars;
        ModelsAgree(m, w, f, n);
        assert forall l :: l in assumed ==> (Holds(m, l) <==> Holds(w, l));
      }
    }
  }

  ghost predicate AgreeOn(m: set<int>, w: set<int>, vars: set<int>) {
    forall v :: v in vars ==> (v in m <==> v in w)
  }

  /** Bounded variable elimination as the preprocessor performs it: the result is implied by the
      input, and each of its models can be changed on unfrozen variables into one of the input. */
  ghost predicate Projects(f: set<Clause>, g: set<Clause>, frozen: set<int>) {
    && (forall m :: Models(m, f) ==> Models(m, g))
    && (forall m :: Models(m, g) ==>
          exists w :: Models(w, f) && AgreeOn(m, w, frozen))
  }

  method Simplify(f: set<Clause>, frozen: set<int>, n: nat) returns (g: set<Clause>)
    requires AllWithin(f, n)
    ensures AllWithin(g, n)
    ensures Projects(f, g, frozen)
  {
    g := f;
  }
}
