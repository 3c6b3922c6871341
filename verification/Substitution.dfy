/** One attempt to eliminate a variable: gate detection, resolvents, removal of the pivot clauses. */
module Substitution {
  import opened Cnf
  import opened Extension
  import opened Elim
  import opened Gates
  import opened MatchedGates
  import XorGates

  function Mirror(r: GateResult): GateResult {
    if r.Gate? then Gate(r.gn, r.gp) else r
  }

  /** Gates of the negated pivot are gates of the pivot. */
  lemma MirrorGood(ps: seq<seq<int>>, ns: seq<seq<int>>, p: int, units: set<int>, r: GateResult)
    requires GoodResult(ns, ps, -p, units, r)
    ensures GoodResult(ps, ns, p, units, Mirror(r))
  {
    hide Forces, Flag, AllSatisfied, NoneSatisfied;
    assert -(-p) == p;
  }

  /** No clause of the gate is root-level satisfied. */
  ghost predicate Clean(ps: seq<seq<int>>, ns: seq<seq<int>>, units: set<int>, r: GateResult) {
    r.Gate? ==> NoneSatisfied(ps, r.gp, units) && NoneSatisfied(ns, r.gn, units)
  }

  /** What the search for a gate reports: a unit is implied; gate clauses define the pivot exactly if
      none of them is root-level satisfied. */
  ghost predicate Reported(ps: seq<seq<int>>, ns: seq<seq<int>>, p: int, units: set<int>, r: GateResult) {
    match r
    case NoGate => true
    case UnitFound(l) => Implied(ps, ns, units, {l}) && l != 0 && l !in units && -l !in units
    case Gate(gp, gn) => Defines(Flag(ps, gp), Flag(ns, gn), p, units) <==> Clean(ps, ns, units, r)
  }

  lemma GoodReported(ps: seq<seq<int>>, ns: seq<seq<int>>, p: int, units: set<int>, r: GateResult)
    requires GoodResult(ps, ns, p, units, r)
    ensures Reported(ps, ns, p, units, r) && Clean(ps, ns, units, r)
  {
    hide Defines, Flag, AllSatisfied, NoneSatisfied;
  }

  lemma MatchedReported(ps: seq<seq<int>>, ns: seq<seq<int>>, p: int, units: set<int>, r: GateResult)
    requires Matched(ps, ns, p, units, r)
    ensures Reported(ps, ns, p, units, r)
  {
    hide Defines, Flag, AllSatisfied, NoneSatisfied;
  }

  ghost predicate NoEquivalence(ps: seq<seq<int>>, ns: seq<seq<int>>, p: int, units: set<int>) {
    forall j :: 0 <= j < |ns| ==> NoPartner(ps, p, ns[j], -p, units)
  }

  ghost predicate NoAnd(ps: seq<seq<int>>, ns: seq<seq<int>>, p: int, units: set<int>) {
    forall j :: 0 <= j < |ns| && |ns[j]| >= 3 ==> NoBase(ps, p, ns[j], -p, units)
  }

  ghost predicate NoXorGate(ps: seq<seq<int>>, ns: seq<seq<int>>, p: int, units: set<int>, limit: nat) {
    forall i :: 0 <= i < |ps| ==> XorGates.NoXor(ps, ns, p, units, ps[i], limit)
  }

  /** There is no gate of the two kinds that are always clean. */
  ghost predicate NothingDirect(ps: seq<seq<int>>, ns: seq<seq<int>>, p: int, units: set<int>) {
    NoEquivalence(ps, ns, p, units) && NoAnd(ps, ns, p, units) && NoAnd(ns, ps, -p, units)
  }

  /** There is no gate that any of the searches can see. */
  ghost predicate NothingToFind(ps: seq<seq<int>>, ns: seq<seq<int>>, p: int, units: set<int>, limit: nat) {
    NothingDirect(ps, ns, p, units) && NoIte(ps, ns, p, units) && NoXorGate(ps, ns, p, units, limit)
  }

  /** The four kinds of gates, tried in order.  Equivalences and AND gates are always clean. */
  method FindGateClauses(ps: seq<seq<int>>, ns: seq<seq<int>>, p: int, units: set<int>, limit: nat) returns (r: GateResult, matched: bool)
    requires PivotLists(ps, ns, p, units)
    ensures Reported(ps, ns, p, units, r)
    ensures !matched ==> Clean(ps, ns, units, r)
    ensures matched ==> NothingDirect(ps, ns, p, units)
    ensures r.NoGate? ==> NothingToFind(ps, ns, p, units, limit)
  {
    hide GoodResult, Matched, Reported, Clean, NoPartner, NoBase, NoIte, XorGates.NoXor;
    RegularProper(ps);
    RegularProper(ns);
    matched := false;
    r := FindEquivalence(ps, ns, p, units);
    GoodReported(ps, ns, p, units, r);
    if !r.NoGate? {
      return;
    }
    r := FindAndGate(ps, ns, p, units);
    GoodReported(ps, ns, p, units, r);
    if !r.NoGate? {
      return;
    }
    var mirrored := FindAndGate(ns, ps, -p, units);
    MirrorGood(ps, ns, p, units, mirrored);
    r := Mirror(mirrored);
    GoodReported(ps, ns, p, units, r);
    if !r.NoGate? {
      return;
    }
    matched := true;
    r := FindIfThenElse(ps, ns, p, units);
    MatchedReported(ps, ns, p, units, r);
    if !r.NoGate? {
      return;
    }
    r := XorGates.FindXor(ps, ns, p, units, limit);
    MatchedReported(ps, ns, p, units, r);
  }

  /** The formula around the pivot. */
  function Formula(rest: set<Clause>, ps: seq<seq<int>>, ns: seq<seq<int>>, units: set<int>): set<Clause> {
    rest + ClausesOf(ps) + ClausesOf(ns) + Units(units)
  }

  lemma FormulaFlagged(rest: set<Clause>, ps: seq<seq<int>>, ns: seq<seq<int>>, units: set<int>, gp: set<int>, gn: set<int>)
    ensures Before(rest, Flag(ps, gp), Flag(ns, gn), units) == Formula(rest, ps, ns, units)
  {
    FlaggedClauses(ps, gp);
    FlaggedClauses(ns, gn);
  }

  lemma FlaggedClauses(cs: seq<seq<int>>, g: set<int>)
    ensures Clauses(Flag(cs, g)) == ClausesOf(cs)
  {
    var fs := Flag(cs, g);
    forall c | c in cs
      ensures Lits(c) in Clauses(fs)
    {
      var i :| 0 <= i < |cs| && cs[i] == c;
      assert fs[i] in fs && fs[i].lits == c;
    }
  }

  lemma FlaggedPivot(cs: seq<seq<int>>, g: set<int>, p: int)
    requires AllRegular(cs) && forall i :: 0 <= i < |cs| ==> p in cs[i]
    ensures PivotClauses(Flag(cs, g), p)
  {
    forall i | 0 <= i < |cs|
      ensures Proper(cs[i]) && p in cs[i] && -p !in cs[i]
    {
      assert p in Lits(cs[i]);
      assert forall k :: 0 <= k < |cs[i]| ==> cs[i][k] in Lits(cs[i]);
    }
  }

  /** A unit implied by the pivot clauses can be added. */
  lemma AddUnit(rest: set<Clause>, ps: seq<seq<int>>, ns: seq<seq<int>>, units: set<int>, l: int, m: set<int>)
    requires Implied(ps, ns, units, {l})
    ensures Models(m, Formula(rest, ps, ns, units)) <==> Models(m, Formula(rest, ps, ns, units + {l}))
  {
    var f, g := Formula(rest, ps, ns, units), Formula(rest, ps, ns, units + {l});
    assert Units(units + {l}) == Units(units) + {Unit(l)};
    assert g == f + {Unit(l)};
    ModelsUnion(m, f, {Unit(l)});
    UnitMeaning(m, l);
    if Models(m, f) {
      ModelsSubset(m, Units(units), f);
      UnitsMeaning(m, units);
      FormulaClauses(rest, ps, ns, units, m);
      assert l in {l};
    }
  }

  lemma FormulaClauses(rest: set<Clause>, ps: seq<seq<int>>, ns: seq<seq<int>>, units: set<int>, m: set<int>)
    requires Models(m, Formula(rest, ps, ns, units))
    ensures AllSatisfied(m, ps) && AllSatisfied(m, ns)
  {
    hide Satisfies;
    assert forall i :: 0 <= i < |ps| ==> Lits(ps[i]) in Formula(rest, ps, ns, units);
    assert forall i :: 0 <= i < |ns| ==> Lits(ns[i]) in Formula(rest, ps, ns, units);
  }

  function Gp(r: GateResult): set<int> {
    if r.Gate? then r.gp else {}
  }

  function Gn(r: GateResult): set<int> {
    if r.Gate? then r.gn else {}
  }

  /** Undoing the substitution of the gate works whatever the other clauses are. */
  ghost predicate ReversibleGate(ps: seq<seq<int>>, ns: seq<seq<int>>, p: int, units: set<int>, r: GateResult) {
    r.Gate? ==> Reversible(Flag(ps, Gp(r)), Flag(ns, Gn(r)), p, units)
  }

  /** A reported gate is reversible exactly if none of its clauses is root-level satisfied. */
  lemma ReversibleIffClean(ps: seq<seq<int>>, ns: seq<seq<int>>, p: int, units: set<int>, r: GateResult)
    requires PivotLists(ps, ns, p, units) && Reported(ps, ns, p, units, r)
    ensures ReversibleGate(ps, ns, p, units, r) <==> Clean(ps, ns, units, r)
  {
    if r.Gate? {
      FlaggedPivot(ps, r.gp, p);
      FlaggedPivot(ns, r.gn, -p);
      hide Defines, Flag, NoneSatisfied, Reversible, PivotClauses, Regular;
      ReversibleIff(Flag(ps, r.gp), Flag(ns, r.gn), p, units);
    }
  }

  /** A clean gate, or none, lets the pivot survive. */
  lemma CleanSurvives(rest: set<Clause>, ps: seq<seq<int>>, ns: seq<seq<int>>, p: int, units: set<int>, r: GateResult)
    requires Reported(ps, ns, p, units, r) && Clean(ps, ns, units, r)
    ensures Survives(rest, Flag(ps, Gp(r)), Flag(ns, Gn(r)), p, units, r.Gate?)
  {
    hide Defines, Flag, NoneSatisfied, Survives;
    if r.Gate? {
      GateSurvives(rest, Flag(ps, Gp(r)), Flag(ns, Gn(r)), p, units);
    } else {
      PlainSurvives(rest, Flag(ps, Gp(r)), Flag(ns, Gn(r)), p, units);
    }
  }

  /** Clauses and units without complementary literals, as the solver stores them. */
  ghost predicate NoTautology(f: set<Clause>, units: set<int>) {
    NoComplement(units) && forall cl :: cl in f ==> NoComplement(cl)
  }

  /** What one attempt leaves: clauses, units, whether the empty clause was derived, the gate. */
  datatype Attempt = Attempt(f: set<Clause>, units: set<int>, unsat: bool, eliminated: bool, gate: GateResult)

  /** What elimination leaves: clauses without the pivot, the old ones and derived ones of at least two
      literals, with exactly the models of the required resolvents. */
  ghost predicate Substituted(rest: set<Clause>, ps: seq<seq<int>>, ns: seq<seq<int>>, p: int, units: set<int>, a: Attempt) {
    && (forall cl :: cl in a.f + Units(a.units) ==> Free(cl, p))
    && (forall cl :: cl in rest ==> cl in a.f) && (!a.unsat ==> forall cl :: cl in a.f ==> cl in rest || |cl| >= 2)
    && forall m :: Source(rest, Flag(ps, Gp(a.gate)), Flag(ns, Gn(a.gate)), p, units, a.gate.Gate?, m) <==> !a.unsat && Models(m, a.f + Units(a.units))
  }

  lemma AllDerived(rest: set<Clause>, ps: seq<seq<int>>, ns: seq<seq<int>>, p: int, units: set<int>, a: Attempt, w: Work)
    requires a.f == rest + w.added && a.units == w.units && a.unsat == w.unsat && Long(w)
    requires forall cl :: cl in After(rest, w) ==> Free(cl, p)
    requires forall m :: Source(rest, Flag(ps, Gp(a.gate)), Flag(ns, Gn(a.gate)), p, units, a.gate.Gate?, m) <==> !w.unsat && Models(m, After(rest, w))
    ensures Substituted(rest, ps, ns, p, units, a)
  {
    hide Source, Models, Free;
  }

  /** One attempt on a pivot.  The new formula follows from the old one; the pushed entries turn each
      of its models into a model of the old one exactly if the pivot survives, which is so whenever
      the gate is clean. */
  method TryToEliminate(rest: set<Clause>, ps: seq<seq<int>>, ns: seq<seq<int>>, p: int, units: set<int>, limit: nat, bounded: bool)
    returns (a: Attempt, es: seq<Entry>)
    requires PivotLists(ps, ns, p, units) && NoTautology(rest, units) && forall cl :: cl in rest ==> Free(cl, p)
    ensures Reported(ps, ns, p, units, a.gate) && units <= a.units && (!a.unsat ==> NoTautology(a.f, a.units))
    ensures if ps == [] then a.gate.NoGate? else a.gate.NoGate? ==> NothingToFind(ps, ns, p, units, limit)
    ensures a.eliminated <==> bounded && !a.gate.UnitFound?
    ensures !a.eliminated ==> !a.unsat && es == [] && a.f == Joined(rest, ps, ns) && a.units == units + if a.gate.UnitFound? then {a.gate.l} else {}
    ensures a.eliminated ==> Substituted(rest, ps, ns, p, units, a)
    ensures forall m :: Models(m, Formula(rest, ps, ns, units)) ==> !a.unsat && Models(m, a.f + Units(a.units))
    ensures !a.unsat && a.eliminated ==>
              (Recovers(a.f + Units(a.units), Formula(rest, ps, ns, units), es) <==>
               Survives(rest, Flag(ps, Gp(a.gate)), Flag(ns, Gn(a.gate)), p, units, a.gate.Gate?))
    ensures !a.unsat && (!a.eliminated || Clean(ps, ns, units, a.gate)) ==> Recovers(a.f + Units(a.units), Formula(rest, ps, ns, units), es)
  {
    hide NothingToFind, Substituted, AllSatisfied, Defines, Models, Formula, After, Before, Free, Reported, Clean, Recovers, Survives, Source, NoTautology, PivotLists;
    es := [];
    var r, matched := NoGate, false;
    NothingReported(ps, ns, p, units);
    if |ps| > 0 {
      r, matched := FindGateClauses(ps, ns, p, units, limit);
    }
    if r.UnitFound? {
      a := Attempt(Joined(rest, ps, ns), units + {r.l}, false, false, r);
      UnitAttempt(rest, ps, ns, p, units, r.l);
    } else if bounded {
      a, es := Substitute(rest, ps, ns, p, units, r);
    } else {
      a := Attempt(Joined(rest, ps, ns), units, false, false, r);
      JoinedFormula(rest, ps, ns, p, units);
      RecoversNothing(Formula(rest, ps, ns, units));
    }
  }

  /** The elimination proper, with the reported gate if there is one. */
  method Substitute(rest: set<Clause>, ps: seq<seq<int>>, ns: seq<seq<int>>, p: int, units: set<int>, r: GateResult)
    returns (a: Attempt, es: seq<Entry>)
    requires PivotLists(ps, ns, p, units) && NoTautology(rest, units) && (forall cl :: cl in rest ==> Free(cl, p)) && Reported(ps, ns, p, units, r)
    ensures a.gate == r && a.eliminated && units <= a.units && (!a.unsat ==> NoTautology(a.f, a.units))
    ensures forall m :: Models(m, Formula(rest, ps, ns, units)) ==> !a.unsat && Models(m, a.f + Units(a.units))
    ensures !a.unsat ==>
              (Recovers(a.f + Units(a.units), Formula(rest, ps, ns, units), es) <==>
               Survives(rest, Flag(ps, Gp(r)), Flag(ns, Gn(r)), p, units, r.Gate?))
    ensures !a.unsat && Clean(ps, ns, units, r) ==> Recovers(a.f + Units(a.units), Formula(rest, ps, ns, units), es)
    ensures Substituted(rest, ps, ns, p, units, a)
  {
    hide Long, Defines, Models, Formula, Before, Free, Reported, Clean, Recovers, Survives, Source, Tidy;
    FlaggedPivot(ps, Gp(r), p);
    FlaggedPivot(ns, Gn(r), -p);
    FormulaFlagged(rest, ps, ns, units, Gp(r), Gn(r));
    var w;
    w, es := Eliminate(rest, Flag(ps, Gp(r)), Flag(ns, Gn(r)), p, units, r.Gate?);
    a := Attempt(rest + w.added, w.units, w.unsat, true, r);
    FlaggedTidy(ps, Gp(r));
    FlaggedTidy(ns, Gn(r));
    TidyStored(rest, Flag(ps, Gp(r)), Flag(ns, Gn(r)), units, w);
    hide Formula, Joined;
    AllDerived(rest, ps, ns, p, units, a, w);
    if Clean(ps, ns, units, r) {
      CleanSurvives(rest, ps, ns, p, units, r);
    }
  }

  lemma FlaggedTidy(cs: seq<seq<int>>, g: set<int>)
    requires AllRegular(cs)
    ensures AllTidy(Flag(cs, g))
  {
  }

  lemma TidyStored(rest: set<Clause>, ps: seq<PivotClause>, ns: seq<PivotClause>, units: set<int>, w: Work)
    requires NoTautology(rest, units) && AllTidy(ps) && AllTidy(ns) && Tidy(ps, ns, units, w)
    ensures NoTautology(rest + w.added, w.units)
  {
    hide NoComplement, AllTidy;
  }

  lemma NothingReported(ps: seq<seq<int>>, ns: seq<seq<int>>, p: int, units: set<int>)
    ensures Reported(ps, ns, p, units, NoGate)
  {
  }

  function Joined(rest: set<Clause>, ps: seq<seq<int>>, ns: seq<seq<int>>): set<Clause> {
    rest + ClausesOf(ps) + ClausesOf(ns)
  }

  lemma JoinedFormula(rest: set<Clause>, ps: seq<seq<int>>, ns: seq<seq<int>>, p: int, units: set<int>)
    requires PivotLists(ps, ns, p, units) && NoTautology(rest, units)
    ensures Formula(rest, ps, ns, units) == Joined(rest, ps, ns) + Units(units)
    ensures NoTautology(Joined(rest, ps, ns), units)
  {
    forall cl | cl in ClausesOf(ps)
      ensures NoComplement(cl)
    {
      var i :| 0 <= i < |ps| && Lits(ps[i]) == cl;
    }
    forall cl | cl in ClausesOf(ns)
      ensures NoComplement(cl)
    {
      var i :| 0 <= i < |ns| && Lits(ns[i]) == cl;
    }
  }

  /** Adding an implied unit. */
  lemma UnitAttempt(rest: set<Clause>, ps: seq<seq<int>>, ns: seq<seq<int>>, p: int, units: set<int>, l: int)
    requires PivotLists(ps, ns, p, units) && NoTautology(rest, units) && Reported(ps, ns, p, units, UnitFound(l))
    ensures NoTautology(Joined(rest, ps, ns), units + {l})
    ensures forall m :: Models(m, Formula(rest, ps, ns, units)) ==> Models(m, Joined(rest, ps, ns) + Units(units + {l}))
    ensures Recovers(Joined(rest, ps, ns) + Units(units + {l}), Formula(rest, ps, ns, units), [])
  {
    JoinedFormula(rest, ps, ns, p, units);
    assert Formula(rest, ps, ns, units + {l}) == Joined(rest, ps, ns) + Units(units + {l});
    hide Models, Formula, Joined, PivotLists, Implied;
    forall m
      ensures Models(m, Formula(rest, ps, ns, units)) <==> Models(m, Formula(rest, ps, ns, units + {l}))
    {
      AddUnit(rest, ps, ns, units, l, m);
    }
  }
}
