/** Bounded variable elimination: resolution of two clauses under root-level assignments, the loop
    that adds all required resolvents on a pivot, and the removal of the pivot clauses. */
module Elim {
  import opened Cnf
  import opened Extension

  /** Root-level value of a literal: units are the literals assigned true. */
  predicate IsFalse(units: set<int>, l: int) {
    -l in units
  }

  predicate IsTrue(units: set<int>, l: int) {
    l in units
  }

  /** Literals of `c` other than the pivot that are not root-level false. */
  function Live(c: seq<int>, p: int, units: set<int>): Clause {
    set l | l in c && l != p && !IsFalse(units, l)
  }

  datatype Outcome =
    | FirstSatisfied
    | SecondSatisfied
    | Tautological
    | Empty
    | UnitClause(l: int)
    | StrengthenBoth
    | StrengthenFirst
    | StrengthenSecond
    | Resolvent(r: Clause)

  ghost predicate Clashing(a: Clause, b: Clause) {
    exists l :: l in a && -l in b
  }

  /** How the live literals `a` and `b` of the two antecedents relate. */
  ghost predicate Relation(a: Clause, b: Clause, o: Outcome) {
    match o
    case Tautological => Clashing(a, b)
    case Empty => a + b == {}
    case UnitClause(l) => a + b == {l} && !Clashing(a, b)
    case StrengthenBoth => a == b && |a + b| >= 2 && !Clashing(a, b)
    case StrengthenFirst => b <= a && !(a <= b) && |a + b| >= 2 && !Clashing(a, b)
    case StrengthenSecond => a <= b && !(b <= a) && |a + b| >= 2 && !Clashing(a, b)
    case Resolvent(r) => r == a + b && |a + b| >= 2 && !(a <= b) && !(b <= a) && !Clashing(a, b)
    case _ => false
  }

  /** No literal but the pivot is true at the root. */
  ghost predicate NoneTrue(c: seq<int>, p: int, units: set<int>) {
    forall l :: l in c && l != p ==> !IsTrue(units, l)
  }

  /** What an outcome of resolving `c` and `d` on `p` says about them. */
  ghost predicate Outcomes(c: seq<int>, p: int, d: seq<int>, units: set<int>, o: Outcome) {
    match o
    case FirstSatisfied => exists l :: l in c && l != p && IsTrue(units, l)
    case SecondSatisfied => exists l :: l in d && l != -p && IsTrue(units, l)
    case _ =>
      && Relation(Live(c, p, units), Live(d, -p, units), o)
      && (o.Tautological? || (NoneTrue(c, p, units) && NoneTrue(d, -p, units)))
  }

  /** Collects the live literals of one antecedent; stops at a true literal. */
  method Collect(c: seq<int>, p: int, units: set<int>) returns (satisfied: bool, live: Clause)
    ensures satisfied ==> exists l :: l in c && l != p && IsTrue(units, l)
    ensures !satisfied ==> live == Live(c, p, units) && NoneTrue(c, p, units)
  {
    satisfied, live := false, {};
    var i := 0;
    while i < |c|
      invariant 0 <= i <= |c|
      invariant live == Live(c[..i], p, units) && NoneTrue(c[..i], p, units)
    {
      assert c[..i + 1] == c[..i] + [c[i]];
      if c[i] != p {
        if IsTrue(units, c[i]) {
          satisfied := true;
          return;
        } else if !IsFalse(units, c[i]) {
          live := live + {c[i]};
        }
      }
      i := i + 1;
    }
    assert c[..|c|] == c;
  }

  /** Adds the live literals of the second antecedent to those marked from the first; stops at a
      true literal or at one whose negation is marked. */
  method Merge(d: seq<int>, q: int, units: set<int>, marked: Clause) returns (satisfied: bool, clash: bool, clause: Clause)
    ensures satisfied ==> exists l :: l in d && l != q && IsTrue(units, l)
    ensures !satisfied && clash ==> Clashing(marked, Live(d, q, units))
    ensures !satisfied && !clash ==> clause == marked + Live(d, q, units) && !Clashing(marked, Live(d, q, units)) && NoneTrue(d, q, units)
  {
    satisfied, clash, clause := false, false, marked;
    var i := 0;
    while i < |d|
      invariant 0 <= i <= |d|
      invariant clause == marked + Live(d[..i], q, units) && NoneTrue(d[..i], q, units)
      invariant forall k :: 0 <= k < i && d[k] != q && !IsFalse(units, d[k]) ==> -d[k] !in marked
    {
      assert d[..i + 1] == d[..i] + [d[i]];
      if d[i] != q {
        if IsTrue(units, d[i]) {
          satisfied := true;
          return;
        } else if !IsFalse(units, d[i]) {
          if -d[i] in marked {
            clash := true;
            assert d[i] in Live(d, q, units);
            assert -(-d[i]) in Live(d, q, units);
            return;
          }
          clause := clause + {d[i]};
        }
      }
      i := i + 1;
    }
    assert d[..|d|] == d;
    NotClashing(marked, Live(d, q, units));
  }

  lemma NotClashing(a: Clause, b: Clause)
    requires forall l :: l in b ==> -l !in a
    ensures !Clashing(a, b)
  {
    forall l | l in a
      ensures -l !in b
    {
      assert -(-l) == l;
    }
  }

  lemma ClashingSymmetric(a: Clause, b: Clause)
    ensures Clashing(a, b) <==> Clashing(b, a)
  {
    if Clashing(a, b) {
      ClashingFlip(a, b);
    }
    if Clashing(b, a) {
      ClashingFlip(b, a);
    }
  }

  lemma ClashingFlip(a: Clause, b: Clause)
    requires Clashing(a, b)
    ensures Clashing(b, a)
  {
    var l :| l in a && -l in b;
    assert -l in b && -(-l) in a;
  }

  /** Resolution on the pivot; the shorter clause is taken first. */
  method ResolveClauses(c: seq<int>, p: int, d: seq<int>, units: set<int>) returns (o: Outcome)
    ensures Outcomes(c, p, d, units, o)
  {
    hide Clashing;
    if |c| > |d| {
      var r := ResolveOrdered(d, -p, c, units);
      o := Swap(r);
      SwapOutcomes(c, p, d, units, r);
    } else {
      o := ResolveOrdered(c, p, d, units);
    }
  }

  function Swap(o: Outcome): Outcome {
    match o
    case FirstSatisfied => SecondSatisfied
    case SecondSatisfied => FirstSatisfied
    case StrengthenFirst => StrengthenSecond
    case StrengthenSecond => StrengthenFirst
    case _ => o
  }

  lemma SwapOutcomes(c: seq<int>, p: int, d: seq<int>, units: set<int>, o: Outcome)
    requires Outcomes(d, -p, c, units, o)
    ensures Outcomes(c, p, d, units, Swap(o))
  {
    hide Live, Clashing, NoneTrue;
    assert -(-p) == p;
    var a, b := Live(c, p, units), Live(d, -p, units);
    ClashingSymmetric(a, b);
    assert a + b == b + a;
  }

  method ResolveOrdered(c: seq<int>, p: int, d: seq<int>, units: set<int>) returns (o: Outcome)
    ensures Outcomes(c, p, d, units, o)
  {
    hide Clashing, Live, NoneTrue;
    var satisfied, a := Collect(c, p, units);
    if satisfied {
      return FirstSatisfied;
    }
    var clash, clause;
    satisfied, clash, clause := Merge(d, -p, units, a);
    if satisfied {
      return SecondSatisfied;
    }
    if clash {
      return Tautological;
    }
    var t := CountLive(d, -p, units);
    o := Classify(a, t, clause, Live(d, -p, units));
  }

  /** Sorts a non-tautological resolvent by its size relative to the antecedents. */
  method Classify(a: Clause, t: int, clause: Clause, ghost b: Clause) returns (o: Outcome)
    requires clause == a + b && t == 1 + |b| && !Clashing(a, b)
    ensures !o.FirstSatisfied? && !o.SecondSatisfied? && Relation(a, b, o)
  {
    var size := |clause|;
    if size == 0 {
      return Empty;
    }
    if size == 1 {
      var u := Pick(clause);
      SingletonClause(clause, u);
      return UnitClause(u);
    }
    SizeCompare(a, b);
    if 1 + |a| > size && t > size {
      return StrengthenBoth;
    }
    if 1 + |a| > size {
      return StrengthenFirst;
    }
    if t > size {
      return StrengthenSecond;
    }
    return Resolvent(clause);
  }

  lemma SingletonClause(cl: Clause, u: int)
    requires |cl| == 1 && u in cl
    ensures cl == {u}
  {
    assert |cl - {u}| == 0;
  }

  /** Number of actual literals of an antecedent, the pivot included. */
  method CountLive(d: seq<int>, q: int, units: set<int>) returns (t: int)
    ensures t == 1 + |Live(d, q, units)|
  {
    var seen: Clause := {};
    var i := 0;
    while i < |d|
      invariant 0 <= i <= |d| && seen == Live(d[..i], q, units)
    {
      assert d[..i + 1] == d[..i] + [d[i]];
      if d[i] != q && !IsFalse(units, d[i]) {
        seen := seen + {d[i]};
      }
      i := i + 1;
    }
    assert d[..|d|] == d;
    t := 1 + |seen|;
  }

  lemma SizeCompare(a: Clause, b: Clause)
    ensures 1 + |a| > |a + b| <==> b <= a
    ensures 1 + |b| > |a + b| <==> a <= b
  {
    DifferenceSize(a, b);
    DifferenceSize(b, a);
    assert a + b == b + a;
  }

  lemma DifferenceSize(a: Clause, b: Clause)
    ensures |a + b| == |a| + |b - a|
    ensures |b - a| == 0 <==> b <= a
  {
    assert a + b == a + (b - a);
    assert b <= a ==> b - a == {};
    if |b - a| == 0 {
      forall x | x in b
        ensures x in a
      {
        assert x !in b - a;
      }
    }
  }

  // ----- what resolution gives -----

  /** In every model of `g` one of the clauses is true without help of the pivot. */
  ghost predicate Handled(g: set<Clause>, c: seq<int>, p: int, d: seq<int>) {
    forall m :: Models(m, g) ==> Rest(m, Lits(c), p) || Rest(m, Lits(d), -p)
  }

  /** In every model of `g` the clause is true without help of the pivot. */
  ghost predicate Redundant(g: set<Clause>, c: seq<int>, p: int) {
    forall m :: Models(m, g) ==> Rest(m, Lits(c), p)
  }

  /** Clauses derived by one resolution step. */
  function Derived(c: seq<int>, p: int, d: seq<int>, units: set<int>, o: Outcome): set<Clause> {
    match o
    case Empty => {{}}
    case UnitClause(l) => {{l}}
    case StrengthenBoth => {Live(c, p, units)}
    case StrengthenFirst => {Live(c, p, units)}
    case StrengthenSecond => {Live(d, -p, units)}
    case Resolvent(r) => {r}
    case _ => {}
  }

  predicate KillsFirst(o: Outcome) {
    o.FirstSatisfied? || o.StrengthenFirst? || o.StrengthenBoth?
  }

  predicate KillsSecond(o: Outcome) {
    o.SecondSatisfied? || o.StrengthenSecond? || o.StrengthenBoth?
  }

  lemma LiveRest(c: seq<int>, p: int, units: set<int>, m: set<int>)
    requires Proper(c)
    ensures Satisfies(m, Live(c, p, units)) ==> Rest(m, Lits(c), p)
    ensures AllHold(m, units) && Rest(m, Lits(c), p) ==> Satisfies(m, Live(c, p, units))
  {
    if AllHold(m, units) && Rest(m, Lits(c), p) {
      var l :| l in Lits(c) && l != p && Holds(m, l);
      assert IsFalse(units, l) ==> Holds(m, -l);
      assert l in Live(c, p, units);
    }
    if Satisfies(m, Live(c, p, units)) {
      var l :| l in Live(c, p, units) && Holds(m, l);
      assert l in Lits(c);
    }
  }

  /** The true literal that made an antecedent satisfied also makes its rest true. */
  lemma UnitRest(c: seq<int>, p: int, units: set<int>, m: set<int>)
    requires AllHold(m, units) && exists l :: l in c && l != p && IsTrue(units, l)
    ensures Rest(m, Lits(c), p)
  {
    var l :| l in c && l != p && IsTrue(units, l);
    assert l in Lits(c) && Holds(m, l);
  }

  lemma ClashRest(a: Clause, b: Clause, m: set<int>)
    requires Clashing(a, b) && (forall l :: l in a ==> l != 0)
    ensures Satisfies(m, a) || Satisfies(m, b)
  {
    var l :| l in a && -l in b;
    assert Holds(m, l) || Holds(m, -l);
  }

  lemma SatisfiesUnion(a: Clause, b: Clause, m: set<int>)
    ensures Satisfies(m, a + b) <==> Satisfies(m, a) || Satisfies(m, b)
  {
    if Satisfies(m, a) {
      var l :| l in a && Holds(m, l);
      assert l in a + b;
    }
    if Satisfies(m, b) {
      var l :| l in b && Holds(m, l);
      assert l in a + b;
    }
  }

  /** A derived clause makes the pair harmless. */
  lemma OutcomeHandles(c: seq<int>, p: int, d: seq<int>, units: set<int>, o: Outcome, m: set<int>)
    requires Proper(c) && Proper(d) && Outcomes(c, p, d, units, o) && AllHold(m, units) && Models(m, Derived(c, p, d, units, o))
    ensures Rest(m, Lits(c), p) || Rest(m, Lits(d), -p)
    ensures KillsFirst(o) ==> Rest(m, Lits(c), p)
    ensures KillsSecond(o) ==> Rest(m, Lits(d), -p)
  {
    hide Rest, Live, Satisfies, Clashing, IsTrue;
    var a, b := Live(c, p, units), Live(d, -p, units);
    LiveRest(c, p, units, m);
    LiveRest(d, -p, units, m);
    SatisfiesUnion(a, b, m);
    match o
    case FirstSatisfied => UnitRest(c, p, units, m);
    case SecondSatisfied => UnitRest(d, -p, units, m);
    case Tautological =>
      LiveProper(c, p, units);
      ClashRest(a, b, m);
    case Empty =>
    case UnitClause(l) => assert {l} in Derived(c, p, d, units, o) && a + b == {l};
    case StrengthenBoth => assert a in Derived(c, p, d, units, o);
    case StrengthenFirst => assert a in Derived(c, p, d, units, o);
    case StrengthenSecond => assert b in Derived(c, p, d, units, o);
    case Resolvent(r) => assert r in Derived(c, p, d, units, o);
  }

  lemma LiveProper(c: seq<int>, p: int, units: set<int>)
    requires Proper(c)
    ensures forall l :: l in Live(c, p, units) ==> l != 0
  {
  }

  /** Two antecedents that hold have one whose rest holds. */
  lemma RestOfPair(c: seq<int>, p: int, d: seq<int>, m: set<int>)
    requires p != 0 && Satisfies(m, Lits(c)) && Satisfies(m, Lits(d))
    ensures Rest(m, Lits(c), p) || Rest(m, Lits(d), -p)
  {
    var l :| l in Lits(c) && Holds(m, l);
    var k :| k in Lits(d) && Holds(m, k);
    assert !(l == p && k == -p);
  }

  /** What is derived holds whenever one antecedent is true without help of the pivot. */
  lemma OutcomeImplied(c: seq<int>, p: int, d: seq<int>, units: set<int>, o: Outcome, m: set<int>)
    requires Proper(c) && Proper(d) && Outcomes(c, p, d, units, o) && AllHold(m, units)
    requires Rest(m, Lits(c), p) || Rest(m, Lits(d), -p)
    ensures Models(m, Derived(c, p, d, units, o))
  {
    hide Live, Clashing, IsTrue;
    var a, b := Live(c, p, units), Live(d, -p, units);
    LiveRest(c, p, units, m);
    LiveRest(d, -p, units, m);
    SatisfiesUnion(a, b, m);
    if o.StrengthenFirst? || o.StrengthenBoth? {
      assert a + b == a;
    }
    if o.StrengthenSecond? {
      assert a + b == b;
    }
  }

  // ----- adding all resolvents on a pivot -----

  datatype PivotClause = PivotClause(lits: seq<int>, gate: bool)

  /** State of the elimination of one pivot: derived clauses, root units, garbage clauses. */
  datatype Work = Work(added: set<Clause>, units: set<int>, unsat: bool, deadP: set<int>, deadN: set<int>)

  function Clauses(cs: seq<PivotClause>): set<Clause> {
    set c | c in cs :: Lits(c.lits)
  }

  /** The formula after elimination: the clauses without the pivot, what was derived, and the units. */
  function After(rest: set<Clause>, w: Work): set<Clause> {
    rest + w.added + Units(w.units)
  }

  function Before(rest: set<Clause>, ps: seq<PivotClause>, ns: seq<PivotClause>, units: set<int>): set<Clause> {
    rest + Clauses(ps) + Clauses(ns) + Units(units)
  }

  predicate PivotClauses(cs: seq<PivotClause>, p: int) {
    forall i :: 0 <= i < |cs| ==> Proper(cs[i].lits) && p in cs[i].lits && -p !in cs[i].lits
  }

  predicate Free(cl: Clause, p: int) {
    p !in cl && -p !in cl && forall l :: l in cl ==> l != 0
  }

  /** Resolvents between two gate clauses and between two other clauses are skipped. */
  predicate Needed(substitute: bool, c: PivotClause, d: PivotClause) {
    !substitute || c.gate != d.gate
  }

  /** Each required pair has a clause that is true without help of the pivot. */
  ghost predicate PairsHold(ps: seq<PivotClause>, ns: seq<PivotClause>, p: int, substitute: bool, m: set<int>) {
    forall i, j :: 0 <= i < |ps| && 0 <= j < |ns| && Needed(substitute, ps[i], ns[j]) ==>
      Rest(m, Lits(ps[i].lits), p) || Rest(m, Lits(ns[j].lits), -p)
  }

  /** What the required resolvents say, apart from how they are derived. */
  ghost predicate Source(rest: set<Clause>, ps: seq<PivotClause>, ns: seq<PivotClause>, p: int, units: set<int>, substitute: bool, m: set<int>) {
    Models(m, rest) && AllHold(m, units) && PairsHold(ps, ns, p, substitute, m)
  }

  ghost predicate Progress(rest: set<Clause>, ps: seq<PivotClause>, ns: seq<PivotClause>, p: int, units: set<int>, substitute: bool, w: Work)
  {
    && units <= w.units && p !in w.units && -p !in w.units && (forall l :: l in w.units ==> l != 0)
    && (forall cl :: cl in w.added ==> Free(cl, p))
    && (forall m :: Source(rest, ps, ns, p, units, substitute, m) ==> !w.unsat && Models(m, After(rest, w)))
    && (forall i :: i in w.deadP ==> 0 <= i < |ps| && Redundant(After(rest, w), ps[i].lits, p))
    && (forall j :: j in w.deadN ==> 0 <= j < |ns| && Redundant(After(rest, w), ns[j].lits, -p))
  }

  lemma AfterGrows(rest: set<Clause>, w: Work, v: Work, c: seq<int>, p: int, d: seq<int>)
    requires w.added <= v.added && w.units <= v.units
    ensures Handled(After(rest, w), c, p, d) ==> Handled(After(rest, v), c, p, d)
    ensures Redundant(After(rest, w), c, p) ==> Redundant(After(rest, v), c, p)
  {
    hide Rest, Satisfies;
    assert Units(w.units) <= Units(v.units);
    assert After(rest, w) <= After(rest, v);
    forall m | Models(m, After(rest, v))
      ensures Models(m, After(rest, w))
    {
      ModelsSubset(m, After(rest, w), After(rest, v));
    }
  }

  /** The new state after resolving one pair. */
  function Apply(w: Work, i: int, j: int, c: seq<int>, p: int, d: seq<int>, o: Outcome): Work {
    Work(if o.UnitClause? then w.added else w.added + Derived(c, p, d, w.units, o),
         if o.UnitClause? then w.units + {o.l} else w.units,
         w.unsat || o.Empty?,
         if KillsFirst(o) then w.deadP + {i} else w.deadP,
         if KillsSecond(o) then w.deadN + {j} else w.deadN)
  }

  lemma AfterApply(rest: set<Clause>, w: Work, i: int, j: int, c: seq<int>, p: int, d: seq<int>, o: Outcome, m: set<int>)
    ensures Models(m, After(rest, Apply(w, i, j, c, p, d, o))) <==>
            Models(m, After(rest, w)) && Models(m, Derived(c, p, d, w.units, o))
    ensures Models(m, After(rest, w)) ==> AllHold(m, w.units)
  {
    hide Satisfies, Live;
    var v := Apply(w, i, j, c, p, d, o);
    UnitsMeaning(m, w.units);
    ModelsUnion(m, rest + w.added, Units(w.units));
    if o.UnitClause? {
      assert Units(v.units) == Units(w.units) + {Unit(o.l)};
      assert After(rest, v) == After(rest, w) + Derived(c, p, d, w.units, o);
    } else {
      assert After(rest, v) == After(rest, w) + Derived(c, p, d, w.units, o);
    }
    ModelsUnion(m, After(rest, w), Derived(c, p, d, w.units, o));
  }

  lemma BeforeParts(rest: set<Clause>, ps: seq<PivotClause>, ns: seq<PivotClause>, units: set<int>, m: set<int>, i: int, j: int)
    requires Models(m, Before(rest, ps, ns, units)) && 0 <= i < |ps| && 0 <= j < |ns|
    ensures Satisfies(m, Lits(ps[i].lits)) && Satisfies(m, Lits(ns[j].lits))
  {
    assert Lits(ps[i].lits) in Clauses(ps) && Lits(ns[j].lits) in Clauses(ns);
  }

  lemma DerivedFree(c: seq<int>, p: int, d: seq<int>, units: set<int>, o: Outcome)
    requires Proper(c) && Proper(d) && p != 0 && p in c && -p !in c && -p in d && p !in d && Outcomes(c, p, d, units, o)
    ensures forall cl :: cl in Derived(c, p, d, units, o) ==> Free(cl, p)
  {
    var a, b := Live(c, p, units), Live(d, -p, units);
    assert Free(a, p) && Free(b, p);
    if o.UnitClause? {
      assert o.l in a + b;
    }
  }

  /** One pair keeps the progress invariant and becomes harmless. */
  lemma ApplyProgress(rest: set<Clause>, ps: seq<PivotClause>, ns: seq<PivotClause>, p: int, units: set<int>, substitute: bool, w: Work, i: int, j: int, o: Outcome)
    requires p != 0 && PivotClauses(ps, p) && PivotClauses(ns, -p) && Progress(rest, ps, ns, p, units, substitute, w)
    requires 0 <= i < |ps| && 0 <= j < |ns| && Needed(substitute, ps[i], ns[j]) && Outcomes(ps[i].lits, p, ns[j].lits, w.units, o)
    ensures var v := Apply(w, i, j, ps[i].lits, p, ns[j].lits, o);
      && Progress(rest, ps, ns, p, units, substitute, v) && w.added <= v.added && w.units <= v.units
      && Handled(After(rest, v), ps[i].lits, p, ns[j].lits)
  {
    hide Satisfies, Live, Rest, After, Before, Outcomes, Models, Derived;
    var c, d := ps[i].lits, ns[j].lits;
    var v := Apply(w, i, j, c, p, d, o);
    assert -(-p) == p;
    DerivedFree(c, p, d, w.units, o);
    UnitDerived(c, p, d, w.units, o);
    forall m | Source(rest, ps, ns, p, units, substitute, m)
      ensures !v.unsat && Models(m, After(rest, v))
    {
      AfterApply(rest, w, i, j, c, p, d, o, m);
      OutcomeImplied(c, p, d, w.units, o, m);
      EmptyDerived(c, p, d, w.units, o, m);
    }
    forall m | Models(m, After(rest, v))
      ensures Rest(m, Lits(c), p) || Rest(m, Lits(d), -p)
      ensures KillsFirst(o) ==> Rest(m, Lits(c), p)
      ensures KillsSecond(o) ==> Rest(m, Lits(d), -p)
    {
      AfterApply(rest, w, i, j, c, p, d, o, m);
      OutcomeHandles(c, p, d, w.units, o, m);
    }
    forall k | k in v.deadP
      ensures 0 <= k < |ps| && Redundant(After(rest, v), ps[k].lits, p)
    {
      if k in w.deadP {
        AfterGrows(rest, w, v, ps[k].lits, p, []);
      }
    }
    forall k | k in v.deadN
      ensures 0 <= k < |ns| && Redundant(After(rest, v), ns[k].lits, -p)
    {
      if k in w.deadN {
        AfterGrows(rest, w, v, ns[k].lits, -p, []);
      }
    }
  }

  lemma UnitDerived(c: seq<int>, p: int, d: seq<int>, units: set<int>, o: Outcome)
    requires o.UnitClause? ==> forall cl :: cl in Derived(c, p, d, units, o) ==> Free(cl, p)
    ensures o.UnitClause? ==> o.l != p && o.l != -p && o.l != 0
  {
    if o.UnitClause? {
      var u: Clause := {o.l};
      assert u in Derived(c, p, d, units, o);
      assert o.l in u;
    }
  }

  lemma EmptyDerived(c: seq<int>, p: int, d: seq<int>, units: set<int>, o: Outcome, m: set<int>)
    requires Models(m, Derived(c, p, d, units, o))
    ensures !o.Empty?
  {
    var e: Clause := {};
    assert !Satisfies(m, e);
    assert o.Empty? ==> e in Derived(c, p, d, units, o);
  }

  ghost predicate AllTidy(cs: seq<PivotClause>) {
    forall i :: 0 <= i < |cs| ==> NoComplement(Lits(cs[i].lits))
  }

  /** From clauses and units without complementary literals only such are derived. */
  ghost predicate Tidy(ps: seq<PivotClause>, ns: seq<PivotClause>, units: set<int>, w: Work) {
    AllTidy(ps) && AllTidy(ns) && NoComplement(units) ==> NoComplement(w.units) && forall cl :: cl in w.added ==> NoComplement(cl)
  }

  /** Units and the empty clause are not kept among the clauses. */
  ghost predicate Long(w: Work) {
    !w.unsat ==> forall cl :: cl in w.added ==> |cl| >= 2
  }

  lemma ApplyLong(w: Work, i: int, j: int, c: seq<int>, p: int, d: seq<int>, o: Outcome)
    requires Long(w) && Outcomes(c, p, d, w.units, o)
    ensures Long(Apply(w, i, j, c, p, d, o))
  {
    hide Live, Clashing, NoneTrue;
    var a, b := Live(c, p, w.units), Live(d, -p, w.units);
    assert o.StrengthenFirst? || o.StrengthenBoth? ==> a + b == a;
    assert o.StrengthenSecond? ==> a + b == b;
  }

  lemma UnionTidy(a: Clause, b: Clause)
    requires NoComplement(a) && NoComplement(b) && !Clashing(a, b)
    ensures NoComplement(a + b)
  {
    ClashingSymmetric(a, b);
  }

  lemma LiveTidy(c: seq<int>, p: int, units: set<int>)
    requires NoComplement(Lits(c))
    ensures NoComplement(Live(c, p, units))
  {
    assert forall l :: l in Live(c, p, units) ==> l in Lits(c);
  }

  lemma ApplyTidy(ps: seq<PivotClause>, ns: seq<PivotClause>, p: int, units: set<int>, w: Work, i: int, j: int, o: Outcome)
    requires Tidy(ps, ns, units, w) && 0 <= i < |ps| && 0 <= j < |ns| && Outcomes(ps[i].lits, p, ns[j].lits, w.units, o)
    ensures Tidy(ps, ns, units, Apply(w, i, j, ps[i].lits, p, ns[j].lits, o))
  {
    if AllTidy(ps) && AllTidy(ns) && NoComplement(units) {
      var c, d := ps[i].lits, ns[j].lits;
      var a, b := Live(c, p, w.units), Live(d, -p, w.units);
      LiveTidy(c, p, w.units);
      LiveTidy(d, -p, w.units);
      if o.UnitClause? {
        UnitTidy(c, p, d, w.units, o.l);
      } else {
        hide Clashing, Live;
        if o.Resolvent? {
          UnionTidy(a, b);
        }
        assert forall cl :: cl in Derived(c, p, d, w.units, o) ==> NoComplement(cl);
      }
    }
  }

  lemma UnitTidy(c: seq<int>, p: int, d: seq<int>, units: set<int>, l: int)
    requires Outcomes(c, p, d, units, UnitClause(l)) && NoComplement(Lits(c)) && NoComplement(Lits(d)) && NoComplement(units)
    ensures NoComplement(units + {l})
  {
    var a, b := Live(c, p, units), Live(d, -p, units);
    assert l in a + b;
    assert l in a ==> l in Lits(c);
    assert l in b ==> l in Lits(d);
  }

  ghost predicate AllHandled(rest: set<Clause>, ps: seq<PivotClause>, ns: seq<PivotClause>, p: int, w: Work, substitute: bool, i: int, j: int)
    requires 0 <= i <= |ps| && 0 <= j <= |ns|
  {
    && (forall a, b :: 0 <= a < i && 0 <= b < |ns| && Needed(substitute, ps[a], ns[b]) ==> Handled(After(rest, w), ps[a].lits, p, ns[b].lits))
    && (forall b :: 0 <= b < j && i < |ps| && Needed(substitute, ps[i], ns[b]) ==> Handled(After(rest, w), ps[i].lits, p, ns[b].lits))
  }

  lemma AllHandledGrows(rest: set<Clause>, ps: seq<PivotClause>, ns: seq<PivotClause>, p: int, w: Work, v: Work, substitute: bool, i: int, j: int)
    requires 0 <= i <= |ps| && 0 <= j <= |ns| && AllHandled(rest, ps, ns, p, w, substitute, i, j)
    requires w.added <= v.added && w.units <= v.units
    ensures AllHandled(rest, ps, ns, p, v, substitute, i, j)
  {
    hide Handled, After;
    forall a, b | 0 <= a < |ps| && 0 <= b < |ns|
      ensures Handled(After(rest, w), ps[a].lits, p, ns[b].lits) ==> Handled(After(rest, v), ps[a].lits, p, ns[b].lits)
    {
      AfterGrows(rest, w, v, ps[a].lits, p, ns[b].lits);
    }
  }

  /** Resolves one positive occurrence against all negative ones. */
  method ResolveRow(rest: set<Clause>, ps: seq<PivotClause>, ns: seq<PivotClause>, p: int, i: int, substitute: bool, w0: Work, ghost units: set<int>)
    returns (w: Work)
    requires p != 0 && PivotClauses(ps, p) && PivotClauses(ns, -p) && Progress(rest, ps, ns, p, units, substitute, w0) && 0 <= i < |ps|
    requires AllHandled(rest, ps, ns, p, w0, substitute, i, 0)
    requires Tidy(ps, ns, units, w0) && Long(w0)
    ensures Progress(rest, ps, ns, p, units, substitute, w) && Tidy(ps, ns, units, w) && Long(w)
    ensures !w.unsat ==> AllHandled(rest, ps, ns, p, w, substitute, i + 1, 0)
  {
    hide Tidy, Long, Progress, Handled, Redundant, After, Outcomes, Apply;
    w := w0;
    var j := 0;
    while j < |ns|
      invariant 0 <= j <= |ns| && Progress(rest, ps, ns, p, units, substitute, w) && Tidy(ps, ns, units, w) && Long(w)
      invariant AllHandled(rest, ps, ns, p, w, substitute, i, j)
    {
      if w.unsat {
        return;
      }
      if i in w.deadP || j in w.deadN {
        DeadHandled(rest, ps, ns, p, units, substitute, w, i, j);
      } else if Needed(substitute, ps[i], ns[j]) {
        var o := ResolveClauses(ps[i].lits, p, ns[j].lits, w.units);
        ApplyProgress(rest, ps, ns, p, units, substitute, w, i, j, o);
        ApplyTidy(ps, ns, p, units, w, i, j, o);
        ApplyLong(w, i, j, ps[i].lits, p, ns[j].lits, o);
        var v := Apply(w, i, j, ps[i].lits, p, ns[j].lits, o);
        AllHandledGrows(rest, ps, ns, p, w, v, substitute, i, j);
        w := v;
      }
      j := j + 1;
    }
  }

  lemma DeadHandled(rest: set<Clause>, ps: seq<PivotClause>, ns: seq<PivotClause>, p: int, units: set<int>, substitute: bool, w: Work, i: int, j: int)
    requires Progress(rest, ps, ns, p, units, substitute, w) && 0 <= i < |ps| && 0 <= j < |ns| && (i in w.deadP || j in w.deadN)
    ensures Handled(After(rest, w), ps[i].lits, p, ns[j].lits)
  {
    hide After, Before, Rest;
  }

  /** All required resolvents on the pivot. */
  method AddResolvents(rest: set<Clause>, ps: seq<PivotClause>, ns: seq<PivotClause>, p: int, units: set<int>, substitute: bool)
    returns (w: Work)
    requires p != 0 && PivotClauses(ps, p) && PivotClauses(ns, -p)
    requires p !in units && -p !in units && forall l :: l in units ==> l != 0
    ensures Progress(rest, ps, ns, p, units, substitute, w) && Tidy(ps, ns, units, w) && Long(w)
    ensures !w.unsat ==> AllHandled(rest, ps, ns, p, w, substitute, |ps|, 0)
  {
    hide Handled, Redundant;
    w := Work({}, units, false, {}, {});
    StartProgress(rest, ps, ns, p, units, substitute);
    hide Progress, Tidy, Long;
    var i := 0;
    while i < |ps|
      invariant 0 <= i <= |ps| && Progress(rest, ps, ns, p, units, substitute, w) && Tidy(ps, ns, units, w) && Long(w)
      invariant !w.unsat ==> AllHandled(rest, ps, ns, p, w, substitute, i, 0)
    {
      if w.unsat {
        return;
      }
      w := ResolveRow(rest, ps, ns, p, i, substitute, w, units);
      i := i + 1;
    }
  }

  lemma StartProgress(rest: set<Clause>, ps: seq<PivotClause>, ns: seq<PivotClause>, p: int, units: set<int>, substitute: bool)
    requires p !in units && -p !in units && forall l :: l in units ==> l != 0
    ensures Progress(rest, ps, ns, p, units, substitute, Work({}, units, false, {}, {}))
  {
    var w := Work({}, units, false, {}, {});
    forall m | Source(rest, ps, ns, p, units, substitute, m)
      ensures Models(m, After(rest, w))
    {
      UnitsMeaning(m, units);
      ModelsUnion(m, rest, Units(units));
      assert After(rest, w) == rest + Units(units);
    }
  }

  /** Models of the original clauses satisfy all resolvents. */
  lemma BeforeIsSource(rest: set<Clause>, ps: seq<PivotClause>, ns: seq<PivotClause>, p: int, units: set<int>, substitute: bool, m: set<int>)
    requires p != 0 && Models(m, Before(rest, ps, ns, units))
    ensures Source(rest, ps, ns, p, units, substitute, m)
  {
    hide Satisfies, Rest;
    ModelsSubset(m, rest, Before(rest, ps, ns, units));
    ModelsSubset(m, Units(units), Before(rest, ps, ns, units));
    UnitsMeaning(m, units);
    forall i, j | 0 <= i < |ps| && 0 <= j < |ns|
      ensures Rest(m, Lits(ps[i].lits), p) || Rest(m, Lits(ns[j].lits), -p)
    {
      BeforeParts(rest, ps, ns, units, m, i, j);
      RestOfPair(ps[i].lits, p, ns[j].lits, m);
    }
  }

  /** The reduced formula has exactly the models of the remaining clauses, the units and all required
      resolvents. */
  lemma AfterIsSource(rest: set<Clause>, ps: seq<PivotClause>, ns: seq<PivotClause>, p: int, units: set<int>, substitute: bool, w: Work, m: set<int>)
    requires Progress(rest, ps, ns, p, units, substitute, w) && !w.unsat && AllHandled(rest, ps, ns, p, w, substitute, |ps|, 0)
    ensures Models(m, After(rest, w)) <==> Source(rest, ps, ns, p, units, substitute, m)
  {
    hide Rest, Satisfies;
    if Models(m, After(rest, w)) {
      ModelUnits(rest, w, m);
      ModelsSubset(m, rest, After(rest, w));
      hide After, Models;
      forall i, j | 0 <= i < |ps| && 0 <= j < |ns| && Needed(substitute, ps[i], ns[j])
        ensures Rest(m, Lits(ps[i].lits), p) || Rest(m, Lits(ns[j].lits), -p)
      {
        assert Handled(After(rest, w), ps[i].lits, p, ns[j].lits);
      }
    }
  }

  // ----- removing the pivot clauses -----

  /** Pushes the clauses that are not garbage (with a gate, only gate clauses) with their pivot. */
  method PushClauses(cs: seq<PivotClause>, dead: set<int>, p: int, substitute: bool) returns (es: seq<Entry>)
    requires PivotClauses(cs, p)
    ensures Uniform(es, p)
    ensures forall k :: 0 <= k < |es| ==> Proper(es[k].wit) || p == 0
    ensures forall k :: 0 <= k < |es| ==> Proper(es[k].clause)
    ensures forall m :: (exists k :: 0 <= k < |es| && !True(m, es[k].clause)) <==> Falsified(cs, dead, substitute, m)
  {
    hide True;
    es := [];
    var i := 0;
    while i < |cs|
      invariant 0 <= i <= |cs| && Uniform(es, p)
      invariant forall k :: 0 <= k < |es| ==> Proper(es[k].clause)
      invariant forall k :: 0 <= k < |es| ==> FromPushed(cs, dead, substitute, i, es[k].clause)
      invariant forall a :: 0 <= a < i && Pushed(cs, dead, substitute, a) ==> exists k :: 0 <= k < |es| && es[k].clause == cs[a].lits
    {
      if Pushed(cs, dead, substitute, i) {
        ghost var es0 := es;
        es := es + [Entry([p], cs[i].lits)];
        PushedMore(cs, dead, substitute, es0, es, i);
        assert FromPushed(cs, dead, substitute, i + 1, cs[i].lits);
      }
      assert forall c: seq<int> :: FromPushed(cs, dead, substitute, i, c) ==> FromPushed(cs, dead, substitute, i + 1, c);
      i := i + 1;
    }
    assert i == |cs|;
    forall m
      ensures (exists k :: 0 <= k < |es| && !True(m, es[k].clause)) <==> Falsified(cs, dead, substitute, m)
    {
      PushedAll(cs, dead, substitute, es, m, i);
    }
  }

  lemma PushedMore(cs: seq<PivotClause>, dead: set<int>, substitute: bool, es: seq<Entry>, es': seq<Entry>, i: int)
    requires 0 <= i < |cs| && Pushed(cs, dead, substitute, i) && |es'| == |es| + 1 && es <= es' && es'[|es|].clause == cs[i].lits
    requires forall a :: 0 <= a < i && Pushed(cs, dead, substitute, a) ==> exists k :: 0 <= k < |es| && es[k].clause == cs[a].lits
    ensures forall a :: 0 <= a < i + 1 && Pushed(cs, dead, substitute, a) ==> exists k :: 0 <= k < |es'| && es'[k].clause == cs[a].lits
  {
    forall a | 0 <= a < i + 1 && Pushed(cs, dead, substitute, a)
      ensures exists k :: 0 <= k < |es'| && es'[k].clause == cs[a].lits
    {
      if a < i {
        var k :| 0 <= k < |es| && es[k].clause == cs[a].lits;
        assert es'[k].clause == cs[a].lits;
      }
    }
  }

  lemma PushedAll(cs: seq<PivotClause>, dead: set<int>, substitute: bool, es: seq<Entry>, m: set<int>, i: int)
    requires i == |cs| && forall k :: 0 <= k < |es| ==> FromPushed(cs, dead, substitute, i, es[k].clause)
    requires forall a :: 0 <= a < i && Pushed(cs, dead, substitute, a) ==> exists k :: 0 <= k < |es| && es[k].clause == cs[a].lits
    ensures (exists k :: 0 <= k < |es| && !True(m, es[k].clause)) <==> Falsified(cs, dead, substitute, m)
  {
    hide True;
    if k :| 0 <= k < |es| && !True(m, es[k].clause) {
      var a :| 0 <= a < |cs| && Pushed(cs, dead, substitute, a) && es[k].clause == cs[a].lits;
    }
  }

  ghost predicate FromPushed(cs: seq<PivotClause>, dead: set<int>, substitute: bool, i: int, c: seq<int>)
    requires i <= |cs|
  {
    exists a :: 0 <= a < i && Pushed(cs, dead, substitute, a) && c == cs[a].lits
  }

  predicate Pushed(cs: seq<PivotClause>, dead: set<int>, substitute: bool, i: int)
    requires 0 <= i < |cs|
  {
    i !in dead && (!substitute || cs[i].gate)
  }

  ghost predicate Falsified(cs: seq<PivotClause>, dead: set<int>, substitute: bool, m: set<int>) {
    exists i :: 0 <= i < |cs| && Pushed(cs, dead, substitute, i) && !True(m, cs[i].lits)
  }

  /** Gate clauses define the pivot: under every assignment that respects the units exactly one
      phase of the pivot is forced by a gate clause. */
  ghost predicate Defines(ps: seq<PivotClause>, ns: seq<PivotClause>, p: int, units: set<int>) {
    forall m :: AllHold(m, units) ==> (Forces(ps, p, m) <==> !Forces(ns, -p, m))
  }

  ghost predicate Forces(cs: seq<PivotClause>, p: int, m: set<int>) {
    exists i :: 0 <= i < |cs| && cs[i].gate && !Rest(m, Lits(cs[i].lits), p)
  }

  /** Clauses of one phase are all true once the pivot has that phase or all their rests are true. */
  ghost predicate AllRest(cs: seq<PivotClause>, p: int, m: set<int>) {
    forall i :: 0 <= i < |cs| ==> Rest(m, Lits(cs[i].lits), p)
  }

  ghost predicate PushedRest(cs: seq<PivotClause>, dead: set<int>, substitute: bool, p: int, m: set<int>) {
    forall i :: 0 <= i < |cs| && Pushed(cs, dead, substitute, i) ==> Rest(m, Lits(cs[i].lits), p)
  }

  /** Either some pushed clause has a false rest, and then all clauses of the other phase have a
      true one, or the other way round. */
  ghost predicate Balanced(ps: seq<PivotClause>, ns: seq<PivotClause>, p: int, deadP: set<int>, deadN: set<int>, substitute: bool, m: set<int>) {
    || (!PushedRest(ps, deadP, substitute, p, m) && AllRest(ns, -p, m))
    || (PushedRest(ps, deadP, substitute, p, m) && AllRest(ps, p, m) && (AllRest(ns, -p, m) || !PushedRest(ns, deadN, substitute, -p, m)))
  }

  /** For every valuation that satisfies the required resolvents, the pushed clauses choose a value
      of the pivot under which all pivot clauses hold. */
  ghost predicate Survives(rest: set<Clause>, ps: seq<PivotClause>, ns: seq<PivotClause>, p: int, units: set<int>, substitute: bool) {
    forall m :: Source(rest, ps, ns, p, units, substitute, m) ==> Balanced(ps, ns, p, {}, {}, substitute, m)
  }

  lemma ModelUnits(rest: set<Clause>, w: Work, m: set<int>)
    requires Models(m, After(rest, w))
    ensures AllHold(m, w.units)
  {
    UnitsMeaning(m, w.units);
    ModelsSubset(m, Units(w.units), After(rest, w));
  }

  /** Garbage clauses have true rests, so it does not matter that they are not pushed. */
  lemma DeadDoNotMatter(rest: set<Clause>, ps: seq<PivotClause>, ns: seq<PivotClause>, p: int, units: set<int>, substitute: bool, w: Work, m: set<int>)
    requires Progress(rest, ps, ns, p, units, substitute, w) && Models(m, After(rest, w))
    ensures Balanced(ps, ns, p, w.deadP, w.deadN, substitute, m) <==> Balanced(ps, ns, p, {}, {}, substitute, m)
  {
    hide After, Models, Rest, Free, Source;
    forall i | i in w.deadP
      ensures 0 <= i < |ps| && Rest(m, Lits(ps[i].lits), p)
    {
      assert Redundant(After(rest, w), ps[i].lits, p);
    }
    forall j | j in w.deadN
      ensures 0 <= j < |ns| && Rest(m, Lits(ns[j].lits), -p)
    {
      assert Redundant(After(rest, w), ns[j].lits, -p);
    }
    hide Progress;
    DeadRest(ps, w.deadP, substitute, p, m);
    DeadRest(ns, w.deadN, substitute, -p, m);
  }

  lemma DeadRest(cs: seq<PivotClause>, dead: set<int>, substitute: bool, p: int, m: set<int>)
    requires forall i :: i in dead ==> 0 <= i < |cs| && Rest(m, Lits(cs[i].lits), p)
    ensures PushedRest(cs, dead, substitute, p, m) <==> PushedRest(cs, {}, substitute, p, m)
  {
    hide Rest;
    if PushedRest(cs, dead, substitute, p, m) {
      forall i | 0 <= i < |cs| && Pushed(cs, {}, substitute, i)
        ensures Rest(m, Lits(cs[i].lits), p)
      {
        assert i in dead || Pushed(cs, dead, substitute, i);
      }
    }
    if PushedRest(cs, {}, substitute, p, m) {
      assert forall i :: 0 <= i < |cs| && Pushed(cs, dead, substitute, i) ==> Pushed(cs, {}, substitute, i);
    }
  }

  /** Without a gate every elimination is reversible. */
  lemma PlainSurvives(rest: set<Clause>, ps: seq<PivotClause>, ns: seq<PivotClause>, p: int, units: set<int>)
    ensures Survives(rest, ps, ns, p, units, false)
  {
    hide Rest, Models;
    forall m | Source(rest, ps, ns, p, units, false, m)
      ensures Balanced(ps, ns, p, {}, {}, false, m)
    {
      if PushedRest(ps, {}, false, p, m) {
        forall i | 0 <= i < |ps|
          ensures Rest(m, Lits(ps[i].lits), p)
        {
          assert Pushed(ps, {}, false, i);
        }
      } else {
        var i :| 0 <= i < |ps| && Pushed(ps, {}, false, i) && !Rest(m, Lits(ps[i].lits), p);
        forall j | 0 <= j < |ns|
          ensures Rest(m, Lits(ns[j].lits), -p)
        {
          assert Needed(false, ps[i], ns[j]);
        }
      }
    }
  }

  /** With a gate that defines the pivot it is, too. */
  lemma GateSurvives(rest: set<Clause>, ps: seq<PivotClause>, ns: seq<PivotClause>, p: int, units: set<int>)
    requires Defines(ps, ns, p, units)
    ensures Survives(rest, ps, ns, p, units, true)
  {
    hide Rest, Models, Forces;
    forall m | Source(rest, ps, ns, p, units, true, m)
      ensures Balanced(ps, ns, p, {}, {}, true, m)
    {
      GateBalanced(ps, ns, p, m);
    }
  }

  lemma GateBalanced(ps: seq<PivotClause>, ns: seq<PivotClause>, p: int, m: set<int>)
    requires PairsHold(ps, ns, p, true, m) && (Forces(ps, p, m) <==> !Forces(ns, -p, m))
    ensures Balanced(ps, ns, p, {}, {}, true, m)
  {
    hide Rest;
    if Forces(ps, p, m) {
      var i :| 0 <= i < |ps| && ps[i].gate && !Rest(m, Lits(ps[i].lits), p);
      assert Pushed(ps, {}, true, i);
      forall j | 0 <= j < |ns|
        ensures Rest(m, Lits(ns[j].lits), -p)
      {
        assert ns[j].gate || Needed(true, ps[i], ns[j]);
      }
    } else {
      var j :| 0 <= j < |ns| && ns[j].gate && !Rest(m, Lits(ns[j].lits), -p);
      assert Pushed(ns, {}, true, j);
      assert !PushedRest(ns, {}, true, -p, m);
      forall i | 0 <= i < |ps|
        ensures Rest(m, Lits(ps[i].lits), p)
      {
        assert ps[i].gate || Needed(true, ps[i], ns[j]);
      }
    }
  }

  lemma FalsifiedMeaning(cs: seq<PivotClause>, dead: set<int>, substitute: bool, p: int, m: set<int>)
    requires p != 0 && PivotClauses(cs, p)
    ensures Falsified(cs, dead, substitute, m) <==> !Holds(m, p) && !PushedRest(cs, dead, substitute, p, m)
  {
    hide Rest, True;
    forall i | 0 <= i < |cs|
      ensures True(m, cs[i].lits) <==> Holds(m, p) || Rest(m, Lits(cs[i].lits), p)
    {
      TrueIsSatisfies(m, cs[i].lits);
      RestIgnoresPivot(m, p, Lits(cs[i].lits), p);
    }
  }

  lemma RestsKept(cs: seq<PivotClause>, dead: set<int>, substitute: bool, p: int, m: set<int>, w: int)
    requires p != 0 && PivotClauses(cs, p) && (w == p || w == -p)
    ensures AllRest(cs, p, SetTrue(m, w)) <==> AllRest(cs, p, m)
    ensures PushedRest(cs, dead, substitute, p, SetTrue(m, w)) <==> PushedRest(cs, dead, substitute, p, m)
  {
    hide Rest, SetTrue;
    forall i | 0 <= i < |cs|
      ensures Rest(SetTrue(m, w), Lits(cs[i].lits), p) <==> Rest(m, Lits(cs[i].lits), p)
    {
      RestIgnoresPivot(m, w, Lits(cs[i].lits), p);
    }
  }

  lemma ClausesTrue(cs: seq<PivotClause>, p: int, m: set<int>)
    requires p != 0 && PivotClauses(cs, p)
    ensures Models(m, Clauses(cs)) <==> Holds(m, p) || AllRest(cs, p, m)
  {
    hide Rest, Satisfies;
    forall i | 0 <= i < |cs|
      ensures Lits(cs[i].lits) in Clauses(cs) && (Satisfies(m, Lits(cs[i].lits)) <==> Holds(m, p) || Rest(m, Lits(cs[i].lits), p))
    {
      RestIgnoresPivot(m, p, Lits(cs[i].lits), p);
    }
    forall cl | cl in Clauses(cs)
      ensures exists i :: 0 <= i < |cs| && cl == Lits(cs[i].lits)
    {
      var c :| c in cs && cl == Lits(c.lits);
      var i :| 0 <= i < |cs| && cs[i] == c;
    }
  }

  /** Undoing first the negative and then the positive clauses gives the pivot a value under which
      all of them hold exactly if the rests are balanced, for both values the pivot had before. */
  lemma PivotFixed(ps: seq<PivotClause>, ns: seq<PivotClause>, p: int, deadP: set<int>, deadN: set<int>, substitute: bool, ep: seq<Entry>, en: seq<Entry>, m: set<int>)
    requires p != 0 && PivotClauses(ps, p) && PivotClauses(ns, -p) && Uniform(ep, p) && Uniform(en, -p)
    requires forall x :: (exists k :: 0 <= k < |ep| && !True(x, ep[k].clause)) <==> Falsified(ps, deadP, substitute, x)
    requires forall x :: (exists k :: 0 <= k < |en| && !True(x, en[k].clause)) <==> Falsified(ns, deadN, substitute, x)
    ensures var r := Reconstruct(ep + en, m);
      && (r == m || r == SetTrue(m, p) || r == SetTrue(m, -p))
      && (Models(r, Clauses(ps)) && Models(r, Clauses(ns)) <==> FixedWell(ps, ns, p, deadP, deadN, substitute, m))
  {
    hide Falsified, AllRest, PushedRest, Models, Uniform, Reconstruct, True;
    ReconstructConcat(ep, en, m);
    UniformReconstruct(en, -p, m);
    var m1 := Reconstruct(en, m);
    UniformReconstruct(ep, p, m1);
    var m2 := Reconstruct(ep, m1);
    assert -(-p) == p;
    FalsifiedMeaning(ns, deadN, substitute, -p, m);
    FalsifiedMeaning(ps, deadP, substitute, p, m1);
    RestsKept(ps, deadP, substitute, p, m, -p);
    RestsKept(ns, deadN, substitute, -p, m, -p);
    RestsKept(ps, deadP, substitute, p, m1, p);
    RestsKept(ns, deadN, substitute, -p, m1, p);
    SetTrueHolds(m, -p, p);
    SetTrueHolds(m, -p, -p);
    SetTrueHolds(m1, p, p);
    SetTrueTwice(m, p);
    SameModel(m, p);
    SameModel(m2, p);
    ClausesTrue(ps, p, m2);
    ClausesTrue(ns, -p, m2);
  }

  /** The outcome of undoing the pushed entries for the value that the pivot has in `m`. */
  ghost predicate FixedWell(ps: seq<PivotClause>, ns: seq<PivotClause>, p: int, deadP: set<int>, deadN: set<int>, substitute: bool, m: set<int>) {
    if !PushedRest(ps, deadP, substitute, p, m) then AllRest(ns, -p, m)
    else if !PushedRest(ns, deadN, substitute, -p, m) || !Holds(m, p) then AllRest(ps, p, m)
    else AllRest(ns, -p, m)
  }

  /** Balanced valuations are those that are fixed well for both values of the pivot. */
  lemma BalancedIff(ps: seq<PivotClause>, ns: seq<PivotClause>, p: int, deadP: set<int>, deadN: set<int>, substitute: bool, m: set<int>)
    requires p != 0 && PivotClauses(ps, p) && PivotClauses(ns, -p)
    ensures Balanced(ps, ns, p, deadP, deadN, substitute, m) <==>
            FixedWell(ps, ns, p, deadP, deadN, substitute, SetTrue(m, p)) && FixedWell(ps, ns, p, deadP, deadN, substitute, SetTrue(m, -p))
    ensures Balanced(ps, ns, p, deadP, deadN, substitute, m) ==> FixedWell(ps, ns, p, deadP, deadN, substitute, m)
  {
    hide AllRest, PushedRest, SetTrue;
    assert -(-p) == p;
    RestsKept(ps, deadP, substitute, p, m, p);
    RestsKept(ps, deadP, substitute, p, m, -p);
    RestsKept(ns, deadN, substitute, -p, m, p);
    RestsKept(ns, deadN, substitute, -p, m, -p);
    SetTrueHolds(m, p, p);
    SetTrueHolds(m, -p, p);
  }

  lemma SetTrueTwice(m: set<int>, p: int)
    requires p != 0
    ensures SetTrue(SetTrue(m, -p), p) == SetTrue(m, p)
  {
  }

  lemma SameModel(m: set<int>, p: int)
    requires p != 0
    ensures Holds(m, p) <==> !Holds(m, -p)
  {
  }

  lemma FreeKept(f: set<Clause>, p: int, m: set<int>, r: set<int>)
    requires p != 0 && (forall cl :: cl in f ==> Free(cl, p)) && Models(m, f)
    requires r == m || r == SetTrue(m, p) || r == SetTrue(m, -p)
    ensures Models(r, f)
  {
    hide SetTrue;
    forall cl | cl in f
      ensures Satisfies(r, cl)
    {
      var l :| l in cl && Holds(m, l);
      SetTrueHolds(m, p, l);
      SetTrueHolds(m, -p, l);
    }
  }

  lemma UnitsFree(units: set<int>, p: int)
    requires p !in units && -p !in units && forall l :: l in units ==> l != 0
    ensures forall cl :: cl in Units(units) ==> Free(cl, p)
  {
  }

  /** Elimination of one pivot.  The result has exactly the models of the required resolvents, and the
      pushed entries extend each of them to a model of the original exactly if the pivot survives. */
  method Eliminate(rest: set<Clause>, ps: seq<PivotClause>, ns: seq<PivotClause>, p: int, units: set<int>, substitute: bool)
    returns (w: Work, es: seq<Entry>)
    requires p != 0 && PivotClauses(ps, p) && PivotClauses(ns, -p) && forall cl :: cl in rest ==> Free(cl, p)
    requires p !in units && -p !in units && forall l :: l in units ==> l != 0
    ensures forall m :: Models(m, Before(rest, ps, ns, units)) ==> Source(rest, ps, ns, p, units, substitute, m)
    ensures forall m :: Source(rest, ps, ns, p, units, substitute, m) <==> !w.unsat && Models(m, After(rest, w))
    ensures !w.unsat ==> (Recovers(After(rest, w), Before(rest, ps, ns, units), es) <==> Survives(rest, ps, ns, p, units, substitute))
    ensures forall cl :: cl in After(rest, w) ==> Free(cl, p)
    ensures units <= w.units && p !in w.units && -p !in w.units && Tidy(ps, ns, units, w) && Long(w)
  {
    hide Tidy, Long, AllHandled, Uniform, Falsified, Free, Source, Survives, Recovers, After, Before, Models, Progress;
    w := AddResolvents(rest, ps, ns, p, units, substitute);
    ProgressFacts(rest, ps, ns, p, units, substitute, w);
    var ep := PushClauses(ps, w.deadP, p, substitute);
    var en := PushClauses(ns, w.deadN, -p, substitute);
    es := ep + en;
    forall m
      ensures Models(m, Before(rest, ps, ns, units)) ==> Source(rest, ps, ns, p, units, substitute, m)
      ensures Source(rest, ps, ns, p, units, substitute, m) <==> !w.unsat && Models(m, After(rest, w))
    {
      if Models(m, Before(rest, ps, ns, units)) {
        BeforeIsSource(rest, ps, ns, p, units, substitute, m);
      }
      if !w.unsat {
        AfterIsSource(rest, ps, ns, p, units, substitute, w, m);
      }
    }
    if !w.unsat {
      RecoversIff(rest, ps, ns, p, units, substitute, w, ep, en);
    }
  }

  lemma ProgressFacts(rest: set<Clause>, ps: seq<PivotClause>, ns: seq<PivotClause>, p: int, units: set<int>, substitute: bool, w: Work)
    requires Progress(rest, ps, ns, p, units, substitute, w) && forall cl :: cl in rest ==> Free(cl, p)
    ensures units <= w.units && p !in w.units && -p !in w.units && forall cl :: cl in After(rest, w) ==> Free(cl, p)
    ensures forall m :: Source(rest, ps, ns, p, units, substitute, m) ==> !w.unsat && Models(m, After(rest, w))
  {
    UnitsFree(w.units, p);
    hide Source, Models, Redundant, Free;
  }

  /** The entries recover the original formula exactly if the pivot survives. */
  lemma RecoversIff(rest: set<Clause>, ps: seq<PivotClause>, ns: seq<PivotClause>, p: int, units: set<int>, substitute: bool, w: Work, ep: seq<Entry>, en: seq<Entry>)
    requires p != 0 && PivotClauses(ps, p) && PivotClauses(ns, -p) && Uniform(ep, p) && Uniform(en, -p)
    requires forall x :: (exists k :: 0 <= k < |ep| && !True(x, ep[k].clause)) <==> Falsified(ps, w.deadP, substitute, x)
    requires forall x :: (exists k :: 0 <= k < |en| && !True(x, en[k].clause)) <==> Falsified(ns, w.deadN, substitute, x)
    requires Progress(rest, ps, ns, p, units, substitute, w) && !w.unsat && AllHandled(rest, ps, ns, p, w, substitute, |ps|, 0)
    requires units <= w.units && forall cl :: cl in After(rest, w) ==> Free(cl, p)
    ensures Recovers(After(rest, w), Before(rest, ps, ns, units), ep + en) <==> Survives(rest, ps, ns, p, units, substitute)
  {
    hide Uniform, Falsified, Free, Source, After, Before, Models, Progress, AllHandled, Balanced, FixedWell, Reconstruct, True, SetTrue;
    forall m | Models(m, After(rest, w))
      ensures Models(Reconstruct(ep + en, m), Before(rest, ps, ns, units)) <==> FixedWell(ps, ns, p, w.deadP, w.deadN, substitute, m)
      ensures Balanced(ps, ns, p, {}, {}, substitute, m) <==> Balanced(ps, ns, p, w.deadP, w.deadN, substitute, m)
      ensures Models(SetTrue(m, p), After(rest, w)) && Models(SetTrue(m, -p), After(rest, w))
    {
      PivotFixed(ps, ns, p, w.deadP, w.deadN, substitute, ep, en, m);
      DeadDoNotMatter(rest, ps, ns, p, units, substitute, w, m);
      RecoverRest(rest, ps, ns, p, units, w, m, Reconstruct(ep + en, m));
      FreeKept(After(rest, w), p, m, SetTrue(m, p));
      FreeKept(After(rest, w), p, m, SetTrue(m, -p));
    }
    forall m
      ensures Models(m, After(rest, w)) <==> Source(rest, ps, ns, p, units, substitute, m)
      ensures Balanced(ps, ns, p, w.deadP, w.deadN, substitute, m) <==>
              FixedWell(ps, ns, p, w.deadP, w.deadN, substitute, SetTrue(m, p)) && FixedWell(ps, ns, p, w.deadP, w.deadN, substitute, SetTrue(m, -p))
      ensures Balanced(ps, ns, p, w.deadP, w.deadN, substitute, m) ==> FixedWell(ps, ns, p, w.deadP, w.deadN, substitute, m)
    {
      AfterIsSource(rest, ps, ns, p, units, substitute, w, m);
      BalancedIff(ps, ns, p, w.deadP, w.deadN, substitute, m);
    }
    if Recovers(After(rest, w), Before(rest, ps, ns, units), ep + en) {
      forall m | Source(rest, ps, ns, p, units, substitute, m)
        ensures Balanced(ps, ns, p, {}, {}, substitute, m)
      {
        assert Models(m, After(rest, w));
        var m1, m2 := SetTrue(m, p), SetTrue(m, -p);
        assert Models(Reconstruct(ep + en, m1), Before(rest, ps, ns, units)) && Models(Reconstruct(ep + en, m2), Before(rest, ps, ns, units));
      }
    }
  }

  /** The other clauses do not see the pivot, so only the pivot clauses decide. */
  lemma RecoverRest(rest: set<Clause>, ps: seq<PivotClause>, ns: seq<PivotClause>, p: int, units: set<int>, w: Work, m: set<int>, r: set<int>)
    requires p != 0 && Models(m, After(rest, w)) && units <= w.units && (forall cl :: cl in After(rest, w) ==> Free(cl, p))
    requires r == m || r == SetTrue(m, p) || r == SetTrue(m, -p)
    ensures Models(r, Before(rest, ps, ns, units)) <==> Models(r, Clauses(ps)) && Models(r, Clauses(ns))
  {
    hide Satisfies, Clauses, Free, SetTrue;
    FreeKept(After(rest, w), p, m, r);
    assert Units(units) <= Units(w.units);
    ModelsSubset(r, rest + Units(units), After(rest, w));
  }

  // ----- which gates are reversible -----

  /** The same gate clauses. */
  ghost predicate SameGates(a: seq<PivotClause>, b: seq<PivotClause>) {
    forall c: seq<int> :: PivotClause(c, true) in a <==> PivotClause(c, true) in b
  }

  /** Substituting the gate can be undone whatever the other clauses are. */
  ghost predicate Reversible(ps: seq<PivotClause>, ns: seq<PivotClause>, p: int, units: set<int>) {
    forall rest, qs, ms :: SameGates(ps, qs) && SameGates(ns, ms) && PivotClauses(qs, p) && PivotClauses(ms, -p) ==>
      Survives(rest, qs, ms, p, units, true)
  }

  lemma SameForces(a: seq<PivotClause>, b: seq<PivotClause>, p: int, m: set<int>)
    requires SameGates(a, b)
    ensures Forces(a, p, m) <==> Forces(b, p, m)
  {
    SubForces(a, b, p, m);
    SubForces(b, a, p, m);
  }

  lemma SubForces(a: seq<PivotClause>, b: seq<PivotClause>, p: int, m: set<int>)
    requires SameGates(a, b)
    ensures Forces(a, p, m) ==> Forces(b, p, m)
  {
    hide Rest;
    if Forces(a, p, m) {
      var i :| 0 <= i < |a| && a[i].gate && !Rest(m, Lits(a[i].lits), p);
      assert PivotClause(a[i].lits, true) == a[i] && a[i] in a;
      assert PivotClause(a[i].lits, true) in b;
      var j :| 0 <= j < |b| && b[j] == PivotClause(a[i].lits, true);
    }
  }

  function GateClausesOf(cs: seq<PivotClause>): (r: seq<PivotClause>)
    ensures forall c :: c in r <==> c in cs && c.gate
  {
    if cs == [] then []
    else
      assert cs == [cs[0]] + cs[1..];
      (if cs[0].gate then [cs[0]] else []) + GateClausesOf(cs[1..])
  }

  lemma GateClausesSame(cs: seq<PivotClause>, p: int)
    requires PivotClauses(cs, p)
    ensures SameGates(cs, GateClausesOf(cs)) && PivotClauses(GateClausesOf(cs), p)
  {
    var r := GateClausesOf(cs);
    forall i | 0 <= i < |r|
      ensures Proper(r[i].lits) && p in r[i].lits && -p !in r[i].lits
    {
      assert r[i] in r && r[i] in cs;
    }
  }

  /** A variable above all those of the literals. */
  lemma Fresh(ls: set<int>) returns (n: nat)
    ensures n > 0 && forall l :: l in ls ==> Abs(l) < n
    decreases |ls|
  {
    n := 1;
    if |ls| > 0 {
      var l := Member(ls);
      var k := Fresh(ls - {l});
      n := if Abs(l) < k then k else Abs(l) + 1;
    }
  }

  function AllLits(cs: seq<PivotClause>): set<int> {
    set c, l | c in cs && l in c.lits :: l
  }

  /** The gate clauses and one more, the pivot with a fresh literal. */
  function OneMore(cs: seq<PivotClause>, p: int, u: int): seq<PivotClause> {
    GateClausesOf(cs) + [PivotClause([p, u], false)]
  }

  lemma OneMoreOk(cs: seq<PivotClause>, p: int, u: int)
    requires p != 0 && PivotClauses(cs, p) && u > Abs(p)
    ensures SameGates(cs, OneMore(cs, p, u)) && PivotClauses(OneMore(cs, p, u), p)
  {
    GateClausesSame(cs, p);
    var qs := OneMore(cs, p, u);
    assert Proper([p, u]) && p in [p, u] && -p !in [p, u];
    forall c: seq<int>
      ensures PivotClause(c, true) in cs <==> PivotClause(c, true) in qs
    {
    }
  }

  lemma OneMorePairs(ps: seq<PivotClause>, ns: seq<PivotClause>, p: int, u: int, v: int, x: set<int>)
    requires forall c :: c in GateClausesOf(ps) ==> Rest(x, Lits(c.lits), p)
    requires forall c :: c in GateClausesOf(ns) ==> Rest(x, Lits(c.lits), -p)
    ensures PairsHold(OneMore(ps, p, u), OneMore(ns, -p, v), p, true, x)
  {
    hide Rest;
    var qs, ms := OneMore(ps, p, u), OneMore(ns, -p, v);
    forall i, j | 0 <= i < |qs| && 0 <= j < |ms| && Needed(true, qs[i], ms[j])
      ensures Rest(x, Lits(qs[i].lits), p) || Rest(x, Lits(ms[j].lits), -p)
    {
      assert i < |qs| - 1 ==> qs[i] in GateClausesOf(ps);
      assert j < |ms| - 1 ==> ms[j] in GateClausesOf(ns);
    }
  }

  lemma UnitsKept(units: set<int>, m: set<int>, u: int, v: int)
    requires AllHold(m, units) && u > 0 && v > 0 && Below(units, u) && Below(units, v) && forall l :: l in units ==> l != 0
    ensures AllHold(m - {u, v}, units)
  {
  }

  /** Two more clauses, one per phase, with fresh literals. */
  lemma NeitherForced(ps: seq<PivotClause>, ns: seq<PivotClause>, p: int, units: set<int>, m: set<int>)
    requires p != 0 && PivotClauses(ps, p) && PivotClauses(ns, -p) && (forall l :: l in units ==> l != 0) && AllHold(m, units)
    requires !Forces(ps, p, m) && !Forces(ns, -p, m)
    ensures !Reversible(ps, ns, p, units)
  {
    hide Reversible, Rest, Survives, Forces, SameGates, PivotClauses, OneMore, Balanced, PairsHold, AllRest, AllLits, AllHold, Models, Below;
    var u := FreshFor(ps, ns, p, units);
    var v := u + 1;
    var qs, ms, x := OneMore(ps, p, u), OneMore(ns, -p, v), m - {u, v};
    OneMoreOk(ps, p, u);
    OneMoreOk(ns, -p, v);
    UnitsKept(units, m, u, v);
    GatesStayTrue(ps, p, m, u, v);
    GatesStayTrue(ns, -p, m, u, v);
    OneMorePairs(ps, ns, p, u, v, x);
    LastRestFalse(ps, p, u, x);
    LastRestFalse(ns, -p, v, x);
    NotBalanced(qs, ms, p, x);
    NoClauses(x);
    NotSurvives({}, qs, ms, p, units, x);
    NotReversible(ps, ns, p, units, {}, qs, ms);
  }

  lemma NoClauses(x: set<int>)
    ensures Models(x, {})
  {
  }

  ghost predicate Below(ls: set<int>, n: int) {
    forall l :: l in ls ==> Abs(l) < n
  }

  lemma FreshFor(ps: seq<PivotClause>, ns: seq<PivotClause>, p: int, units: set<int>) returns (u: nat)
    ensures u > Abs(p) && Below(units, u) && Below(AllLits(ps), u) && Below(AllLits(ns), u)
    ensures Below(units, u + 1) && Below(AllLits(ps), u + 1) && Below(AllLits(ns), u + 1)
  {
    hide AllLits;
    var known := {p} + units + AllLits(ps) + AllLits(ns);
    u := Fresh(known);
    assert p in known;
  }

  lemma NotSurvives(rest: set<Clause>, qs: seq<PivotClause>, ms: seq<PivotClause>, p: int, units: set<int>, x: set<int>)
    requires Source(rest, qs, ms, p, units, true, x) && !Balanced(qs, ms, p, {}, {}, true, x)
    ensures !Survives(rest, qs, ms, p, units, true)
  {
    hide Source, Balanced;
  }

  lemma NotReversible(ps: seq<PivotClause>, ns: seq<PivotClause>, p: int, units: set<int>, rest: set<Clause>, qs: seq<PivotClause>, ms: seq<PivotClause>)
    requires SameGates(ps, qs) && SameGates(ns, ms) && PivotClauses(qs, p) && PivotClauses(ms, -p) && !Survives(rest, qs, ms, p, units, true)
    ensures !Reversible(ps, ns, p, units)
  {
    hide SameGates, PivotClauses, Survives;
  }

  /** Making fresh variables false keeps the rests of the gate clauses true. */
  lemma GatesStayTrue(cs: seq<PivotClause>, p: int, m: set<int>, u: int, v: int)
    requires !Forces(cs, p, m) && Below(AllLits(cs), u) && Below(AllLits(cs), v)
    requires u > 0 && v > 0
    ensures forall c :: c in GateClausesOf(cs) ==> Rest(m - {u, v}, Lits(c.lits), p)
  {
    forall c | c in GateClausesOf(cs)
      ensures Rest(m - {u, v}, Lits(c.lits), p)
    {
      var i :| 0 <= i < |cs| && cs[i] == c;
      assert Rest(m, Lits(c.lits), p);
      var l :| l in Lits(c.lits) && l != p && Holds(m, l);
      assert l in AllLits(cs);
    }
  }

  lemma LastRestFalse(cs: seq<PivotClause>, p: int, u: int, x: set<int>)
    requires u > 0 && u !in x
    ensures !AllRest(OneMore(cs, p, u), p, x)
  {
    var c := OneMore(cs, p, u)[|GateClausesOf(cs)|];
    assert c == PivotClause([p, u], false);
    assert Lits(c.lits) == {p, u};
  }

  lemma NotBalanced(qs: seq<PivotClause>, ms: seq<PivotClause>, p: int, x: set<int>)
    requires !AllRest(qs, p, x) && !AllRest(ms, -p, x)
    ensures !Balanced(qs, ms, p, {}, {}, true, x)
  {
    hide AllRest, PushedRest;
  }

  /** The gate clauses alone, with both phases forced at once. */
  lemma BothForced(ps: seq<PivotClause>, ns: seq<PivotClause>, p: int, units: set<int>, m: set<int>)
    requires p != 0 && PivotClauses(ps, p) && PivotClauses(ns, -p) && AllHold(m, units)
    requires Forces(ps, p, m) && Forces(ns, -p, m)
    ensures !Reversible(ps, ns, p, units)
  {
    var qs, ms := GateClausesOf(ps), GateClausesOf(ns);
    GateClausesSame(ps, p);
    GateClausesSame(ns, -p);
    SameForces(ps, qs, p, m);
    SameForces(ns, ms, -p, m);
    hide Rest, Reversible;
    assert forall i :: 0 <= i < |qs| ==> qs[i] in qs;
    assert forall j :: 0 <= j < |ms| ==> ms[j] in ms;
    assert PairsHold(qs, ms, p, true, m);
    assert !AllRest(qs, p, m) && !AllRest(ms, -p, m);
    NotBalanced(qs, ms, p, m);
    assert Models(m, {});
    NotSurvives({}, qs, ms, p, units, m);
    NotReversible(ps, ns, p, units, {}, qs, ms);
  }

  /** Substitution of a gate is reversible for all other clauses exactly if the gate defines the pivot. */
  lemma ReversibleIff(ps: seq<PivotClause>, ns: seq<PivotClause>, p: int, units: set<int>)
    requires p != 0 && PivotClauses(ps, p) && PivotClauses(ns, -p) && forall l :: l in units ==> l != 0
    ensures Reversible(ps, ns, p, units) <==> Defines(ps, ns, p, units)
  {
    hide Forces, Reversible, Survives, SameGates, PivotClauses;
    if Defines(ps, ns, p, units) {
      DefinesReversible(ps, ns, p, units);
    } else {
      var m :| AllHold(m, units) && (Forces(ps, p, m) <==> Forces(ns, -p, m));
      if Forces(ps, p, m) {
        BothForced(ps, ns, p, units, m);
      } else {
        NeitherForced(ps, ns, p, units, m);
      }
    }
  }

  lemma DefinesReversible(ps: seq<PivotClause>, ns: seq<PivotClause>, p: int, units: set<int>)
    requires Defines(ps, ns, p, units)
    ensures Reversible(ps, ns, p, units)
  {
    hide Forces, Survives, SameGates, PivotClauses;
    forall rest, qs, ms | SameGates(ps, qs) && SameGates(ns, ms)
      ensures Survives(rest, qs, ms, p, units, true)
    {
      forall m
        ensures Forces(ps, p, m) <==> Forces(qs, p, m)
        ensures Forces(ns, -p, m) <==> Forces(ms, -p, m)
      {
        SameForces(ps, qs, p, m);
        SameForces(ns, ms, -p, m);
      }
      GateSurvives(rest, qs, ms, p, units);
    }
  }
}
