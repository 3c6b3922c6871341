/** Substitution of equivalent literals by their representatives and its recovery. */
module Decompose {
  import opened Cnf
  import opened Extension
  import opened Elim
  import opened Graph
  import opened Tarjan

  /** Representatives for all literals, as the search leaves them. */
  ghost predicate Table(g: Graph, frozen: set<int>, reprs: map<int, int>) {
    && GraphOk(g) && Skew(g) && 0 !in g.lits && (forall l :: l in frozen ==> -l in frozen)
    && forall l :: l in g.lits ==> l in reprs && IsRepr(g, frozen, l, reprs[l]) && !Mutual(g, l, -l)
  }

  /** A substitution that respects negation and is done in one step. */
  ghost predicate Substitution(lits: set<int>, reprs: map<int, int>) {
    forall l :: l in lits ==>
      && l != 0 && -l in lits && l in reprs && reprs[l] in lits && reprs[l] in reprs && -l in reprs
      && reprs[-l] == -reprs[l] && reprs[reprs[l]] == reprs[l]
  }

  lemma MutualNode(g: Graph, p: int, q: int)
    requires GraphOk(g) && Mutual(g, p, q)
    ensures p in g.lits && q in g.lits
  {
    var xs :| Connects(g, xs, p, q);
    LastIsNode(g, xs);
  }

  /** Two smallest literals of one component are the same. */
  lemma SmallestUnique(g: Graph, frozen: set<int>, reprs: map<int, int>, l: int, r: int, q: int)
    requires Table(g, frozen, reprs) && Mutual(g, l, r) && Mutual(g, l, q) && Abs(r) == Abs(q)
    ensures r == q
  {
    hide Reach;
    MutualNode(g, l, r);
    if r != q {
      assert q == -r;
      MutualTrans(g, r, l, q);
    }
  }

  lemma TableNegation(g: Graph, frozen: set<int>, reprs: map<int, int>, l: int)
    requires Table(g, frozen, reprs) && l in g.lits
    ensures -l in g.lits && reprs[-l] == -reprs[l]
  {
    hide Reach;
    if l !in frozen {
      assert -(-l) == l;
      assert -l !in frozen;
      var r, q := reprs[l], reprs[-l];
      MutualMirror(g, l, r);
      MutualMirror(g, -l, q);
      assert Abs(q) <= Abs(-r) && Abs(r) <= Abs(-q);
      SmallestUnique(g, frozen, reprs, -l, q, -r);
    }
  }

  lemma TableFixed(g: Graph, frozen: set<int>, reprs: map<int, int>, l: int)
    requires Table(g, frozen, reprs) && l in g.lits
    ensures reprs[l] in g.lits && reprs[reprs[l]] == reprs[l]
  {
    hide Reach;
    if l !in frozen {
      var r := reprs[l];
      MutualNode(g, l, r);
      if r !in frozen {
        var q := reprs[r];
        MutualTrans(g, l, r, q);
        assert Mutual(g, r, l);
        MutualTrans(g, r, l, r);
        assert Abs(q) <= Abs(r) && Abs(r) <= Abs(q);
        SmallestUnique(g, frozen, reprs, l, q, r);
      }
    }
  }

  lemma TableSubstitution(g: Graph, frozen: set<int>, reprs: map<int, int>)
    requires Table(g, frozen, reprs)
    ensures Substitution(g.lits, reprs)
  {
    hide Reach, IsRepr;
    forall l | l in g.lits
      ensures -l in g.lits && reprs[-l] == -reprs[l] && reprs[l] in g.lits && reprs[reprs[l]] == reprs[l]
    {
      TableNegation(g, frozen, reprs, l);
      TableFixed(g, frozen, reprs, l);
    }
  }

  /** In every model of the formula a literal equals its representative. */
  lemma ReprEqual(f: set<Clause>, g: Graph, frozen: set<int>, reprs: map<int, int>, l: int, m: set<int>)
    requires Table(g, frozen, reprs) && Implications(f, g) && l in g.lits && Models(m, f)
    ensures Holds(m, reprs[l]) <==> Holds(m, l)
  {
    hide Models, Edge, Reach;
    if l !in frozen {
      MutualEqual(f, g, l, reprs[l], m);
    }
  }

  // ----- clauses -----

  /** Value of a literal once its variable has been given the value of its representative. */
  ghost predicate Val(lits: set<int>, reprs: map<int, int>, m: set<int>, l: int) {
    if l in lits && l in reprs then Holds(m, reprs[l]) else Holds(m, l)
  }

  ghost predicate SomeVal(lits: set<int>, reprs: map<int, int>, m: set<int>, c: seq<int>) {
    exists l :: l in c && Val(lits, reprs, m, l)
  }

  /** Root-level values are values of representatives, or of literals outside the graph. */
  ghost predicate UnitsOk(lits: set<int>, reprs: map<int, int>, units: set<int>) {
    forall u :: u in units ==> u != 0 && (u in lits ==> u in reprs && reprs[u] == u) && (u in lits <==> -u in lits)
  }

  lemma UnitVal(lits: set<int>, reprs: map<int, int>, units: set<int>, m: set<int>, l: int)
    requires Substitution(lits, reprs) && UnitsOk(lits, reprs, units) && AllHold(m, units)
    ensures IsTrue(units, l) ==> Val(lits, reprs, m, l)
    ensures IsFalse(units, l) && l != 0 ==> !Val(lits, reprs, m, l)
  {
    if IsFalse(units, l) && l != 0 {
      assert Holds(m, -l);
      if l in lits {
        assert reprs[-l] == -l && reprs[l] == -reprs[-l];
      }
    }
  }

  ghost predicate ClauseOk(lits: set<int>, units: set<int>, c: seq<int>) {
    forall l :: l in c ==> l != 0 && (l in lits || IsTrue(units, l) || IsFalse(units, l))
  }

  /** The literals of the rewritten prefix of a clause. */
  ghost predicate Rewritten(lits: set<int>, reprs: map<int, int>, units: set<int>, c: seq<int>, out: seq<int>) {
    && (forall l :: l in out ==> l in lits && l in reprs && reprs[l] == l && -l !in out && !IsTrue(units, l) && !IsFalse(units, l))
    && NoDuplicates(out)
    && forall m :: AllHold(m, units) ==> (Satisfies(m, Lits(out)) <==> SomeVal(lits, reprs, m, c))
  }

  lemma RewriteSkip(lits: set<int>, reprs: map<int, int>, units: set<int>, c: seq<int>, out: seq<int>, l: int)
    requires Rewritten(lits, reprs, units, c, out)
    requires forall m :: AllHold(m, units) ==> !Val(lits, reprs, m, l) || Satisfies(m, Lits(out))
    ensures Rewritten(lits, reprs, units, c + [l], out)
  {
    hide Val, Satisfies, AllHold;
    forall m | AllHold(m, units)
      ensures Satisfies(m, Lits(out)) <==> SomeVal(lits, reprs, m, c + [l])
    {
      SomeValMore(lits, reprs, m, c, l);
    }
  }

  lemma SomeValMore(lits: set<int>, reprs: map<int, int>, m: set<int>, c: seq<int>, l: int)
    ensures SomeVal(lits, reprs, m, c + [l]) <==> SomeVal(lits, reprs, m, c) || Val(lits, reprs, m, l)
  {
    hide Val;
    if SomeVal(lits, reprs, m, c) {
      var k :| k in c && Val(lits, reprs, m, k);
      assert k in c + [l];
    }
    assert l in c + [l];
  }

  lemma RewriteAdd(lits: set<int>, reprs: map<int, int>, units: set<int>, c: seq<int>, out: seq<int>, l: int)
    requires Rewritten(lits, reprs, units, c, out) && Substitution(lits, reprs) && l in lits
    requires var r := reprs[l]; r !in out && -r !in out && !IsTrue(units, r) && !IsFalse(units, r)
    ensures Rewritten(lits, reprs, units, c + [l], out + [reprs[l]])
  {
    var r := reprs[l];
    LitsAdd(out, r);
    forall m | AllHold(m, units)
      ensures Satisfies(m, Lits(out + [r])) <==> SomeVal(lits, reprs, m, c + [l])
    {
      SomeValMore(lits, reprs, m, c, l);
      SatisfiesUnion(Lits(out), {r}, m);
      UnitMeaning(m, r);
    }
    forall k | k in out + [r]
      ensures k in lits && reprs[k] == k && -k !in out + [r] && !IsTrue(units, k) && !IsFalse(units, k)
    {
      assert -(-k) == k;
    }
  }

  /** Replaces literals by representatives; drops false and duplicated ones; detects a clause that is
      satisfied at the root or contains complementary representatives. */
  method SubstituteClause(lits: set<int>, reprs: map<int, int>, units: set<int>, c: seq<int>) returns (satisfied: bool, out: seq<int>)
    requires Substitution(lits, reprs) && UnitsOk(lits, reprs, units) && ClauseOk(lits, units, c)
    ensures satisfied ==> forall m :: AllHold(m, units) ==> SomeVal(lits, reprs, m, c)
    ensures !satisfied ==> Rewritten(lits, reprs, units, c, out)
  {
    hide Rewritten, Val, UnitsOk, Satisfies, AllHold, SomeVal;
    satisfied, out := false, [];
    RewriteNothing(lits, reprs, units);
    var k := 0;
    while !satisfied && k < |c|
      invariant 0 <= k <= |c|
      invariant satisfied ==> forall m :: AllHold(m, units) ==> SomeVal(lits, reprs, m, c)
      invariant !satisfied ==> Rewritten(lits, reprs, units, c[..k], out)
    {
      var lit := c[k];
      assert lit in c && c[..k + 1] == c[..k] + [lit];
      if IsTrue(units, lit) {
        satisfied := true;
        TrueLiteral(lits, reprs, units, c, lit);
      } else if IsFalse(units, lit) {
        FalseLiteral(lits, reprs, units, c[..k], out, lit);
      } else {
        var other := reprs[lit];
        if IsFalse(units, other) {
          FalseRepr(lits, reprs, units, c[..k], out, lit);
        } else if IsTrue(units, other) {
          satisfied := true;
          TrueRepr(lits, reprs, units, c, lit);
        } else if -other in out {
          satisfied := true;
          Complementary(lits, reprs, units, c[..k], c, out, lit);
        } else if other !in out {
          RewriteAdd(lits, reprs, units, c[..k], out, lit);
          out := out + [other];
        } else {
          Duplicate(lits, reprs, units, c[..k], out, lit);
        }
      }
      k := k + 1;
    }
    assert c[..|c|] == c;
  }

  lemma RewriteNothing(lits: set<int>, reprs: map<int, int>, units: set<int>)
    ensures Rewritten(lits, reprs, units, [], [])
  {
    forall m
      ensures !Satisfies(m, Lits([])) && !SomeVal(lits, reprs, m, [])
    {
    }
  }

  lemma TrueLiteral(lits: set<int>, reprs: map<int, int>, units: set<int>, c: seq<int>, l: int)
    requires Substitution(lits, reprs) && UnitsOk(lits, reprs, units) && l in c && IsTrue(units, l)
    ensures forall m :: AllHold(m, units) ==> SomeVal(lits, reprs, m, c)
  {
    forall m | AllHold(m, units)
      ensures SomeVal(lits, reprs, m, c)
    {
      UnitVal(lits, reprs, units, m, l);
    }
  }

  lemma FalseLiteral(lits: set<int>, reprs: map<int, int>, units: set<int>, c: seq<int>, out: seq<int>, l: int)
    requires Substitution(lits, reprs) && UnitsOk(lits, reprs, units) && Rewritten(lits, reprs, units, c, out) && IsFalse(units, l) && l != 0
    ensures Rewritten(lits, reprs, units, c + [l], out)
  {
    hide Rewritten;
    forall m | AllHold(m, units)
      ensures !Val(lits, reprs, m, l)
    {
      UnitVal(lits, reprs, units, m, l);
    }
    RewriteSkip(lits, reprs, units, c, out, l);
  }

  lemma FalseRepr(lits: set<int>, reprs: map<int, int>, units: set<int>, c: seq<int>, out: seq<int>, l: int)
    requires Substitution(lits, reprs) && Rewritten(lits, reprs, units, c, out) && l in lits && IsFalse(units, reprs[l])
    ensures Rewritten(lits, reprs, units, c + [l], out)
  {
    hide Rewritten;
    forall m | AllHold(m, units)
      ensures !Val(lits, reprs, m, l)
    {
      assert Holds(m, -reprs[l]) && reprs[l] != 0;
    }
    RewriteSkip(lits, reprs, units, c, out, l);
  }

  lemma TrueRepr(lits: set<int>, reprs: map<int, int>, units: set<int>, c: seq<int>, l: int)
    requires Substitution(lits, reprs) && l in c && l in lits && IsTrue(units, reprs[l])
    ensures forall m :: AllHold(m, units) ==> SomeVal(lits, reprs, m, c)
  {
    forall m | AllHold(m, units)
      ensures SomeVal(lits, reprs, m, c)
    {
      assert Val(lits, reprs, m, l);
    }
  }

  lemma Complementary(lits: set<int>, reprs: map<int, int>, units: set<int>, b: seq<int>, c: seq<int>, out: seq<int>, l: int)
    requires Substitution(lits, reprs) && Rewritten(lits, reprs, units, b, out) && l in lits && l in c && -reprs[l] in out && b <= c
    ensures forall m :: AllHold(m, units) ==> SomeVal(lits, reprs, m, c)
  {
    forall m | AllHold(m, units)
      ensures SomeVal(lits, reprs, m, c)
    {
      if !Val(lits, reprs, m, l) {
        assert -reprs[l] in Lits(out) && Holds(m, -reprs[l]);
        assert SomeVal(lits, reprs, m, b);
        var k :| k in b && Val(lits, reprs, m, k);
        var i :| 0 <= i < |b| && b[i] == k;
        assert c[i] == k;
      }
    }
  }

  lemma Duplicate(lits: set<int>, reprs: map<int, int>, units: set<int>, c: seq<int>, out: seq<int>, l: int)
    requires Substitution(lits, reprs) && Rewritten(lits, reprs, units, c, out) && l in lits && reprs[l] in out
    ensures Rewritten(lits, reprs, units, c + [l], out)
  {
    hide Rewritten;
    forall m | AllHold(m, units)
      ensures !Val(lits, reprs, m, l) || Satisfies(m, Lits(out))
    {
      assert reprs[l] in Lits(out);
    }
    RewriteSkip(lits, reprs, units, c, out, l);
  }

  // ----- all clauses -----

  ghost predicate AllVal(lits: set<int>, reprs: map<int, int>, m: set<int>, cs: seq<seq<int>>) {
    forall i :: 0 <= i < |cs| ==> SomeVal(lits, reprs, m, cs[i])
  }

  /** The rewritten clauses and the new units mean, for representatives, what the clauses mean. */
  ghost predicate Equivalent(lits: set<int>, reprs: map<int, int>, units0: set<int>, cs: seq<seq<int>>, units: set<int>, out: seq<seq<int>>, unsat: bool) {
    forall m :: (AllHold(m, units0) && AllVal(lits, reprs, m, cs)) <==> (!unsat && AllHold(m, units) && Models(m, ClausesOf(out)))
  }

  /** No substituted literal is left. */
  ghost predicate OnlyReprs(reprs: map<int, int>, c: seq<int>) {
    forall l :: l in c ==> l in reprs && reprs[l] == l
  }

  lemma AllValMore(lits: set<int>, reprs: map<int, int>, m: set<int>, cs: seq<seq<int>>, c: seq<int>)
    ensures AllVal(lits, reprs, m, cs + [c]) <==> AllVal(lits, reprs, m, cs) && SomeVal(lits, reprs, m, c)
  {
    hide SomeVal;
    var ds := cs + [c];
    if AllVal(lits, reprs, m, ds) {
      assert ds[|cs|] == c;
      forall i | 0 <= i < |cs|
        ensures SomeVal(lits, reprs, m, cs[i])
      {
        assert ds[i] == cs[i];
      }
    }
  }

  lemma ClausesMore(m: set<int>, out: seq<seq<int>>, c: seq<int>)
    ensures Models(m, ClausesOf(out + [c])) <==> Models(m, ClausesOf(out)) && Satisfies(m, Lits(c))
  {
    hide Satisfies;
    assert ClausesOf(out + [c]) == ClausesOf(out) + {Lits(c)};
    ModelsUnion(m, ClausesOf(out), {Lits(c)});
  }

  /** A clause without substituted literals stays as it is. */
  lemma Unchanged(lits: set<int>, reprs: map<int, int>, units0: set<int>, cs: seq<seq<int>>, units: set<int>, out: seq<seq<int>>, unsat: bool, c: seq<int>)
    requires Equivalent(lits, reprs, units0, cs, units, out, unsat) && OnlyReprs(reprs, c)
    ensures Equivalent(lits, reprs, units0, cs + [c], units, out + [c], unsat)
  {
    hide AllVal, ClausesOf, Models;
    forall m
      ensures AllVal(lits, reprs, m, cs + [c]) <==> AllVal(lits, reprs, m, cs) && Satisfies(m, Lits(c))
      ensures Models(m, ClausesOf(out + [c])) <==> Models(m, ClausesOf(out)) && Satisfies(m, Lits(c))
    {
      AllValMore(lits, reprs, m, cs, c);
      ClausesMore(m, out, c);
      SameMeaning(lits, reprs, m, c);
    }
  }

  lemma SameMeaning(lits: set<int>, reprs: map<int, int>, m: set<int>, c: seq<int>)
    requires OnlyReprs(reprs, c)
    ensures SomeVal(lits, reprs, m, c) <==> Satisfies(m, Lits(c))
  {
    if Satisfies(m, Lits(c)) {
      var l :| l in Lits(c) && Holds(m, l);
      assert Val(lits, reprs, m, l);
    }
    if SomeVal(lits, reprs, m, c) {
      var l :| l in c && Val(lits, reprs, m, l);
      assert l in Lits(c);
    }
  }

  lemma DropSatisfied(lits: set<int>, reprs: map<int, int>, units0: set<int>, cs: seq<seq<int>>, units: set<int>, out: seq<seq<int>>, unsat: bool, c: seq<int>)
    requires Equivalent(lits, reprs, units0, cs, units, out, unsat) && forall m :: AllHold(m, units) ==> SomeVal(lits, reprs, m, c)
    ensures Equivalent(lits, reprs, units0, cs + [c], units, out, unsat)
  {
    hide AllVal, ClausesOf, Models, AllHold, SomeVal;
    forall m
      ensures AllVal(lits, reprs, m, cs + [c]) <==> AllVal(lits, reprs, m, cs) && SomeVal(lits, reprs, m, c)
    {
      AllValMore(lits, reprs, m, cs, c);
    }
  }

  /** An empty clause, a unit, or a longer clause. */
  lemma Replace(lits: set<int>, reprs: map<int, int>, units0: set<int>, cs: seq<seq<int>>, units: set<int>, out: seq<seq<int>>, c: seq<int>, d: seq<int>)
    requires Equivalent(lits, reprs, units0, cs, units, out, false) && Rewritten(lits, reprs, units, c, d)
    ensures |d| == 0 ==> Equivalent(lits, reprs, units0, cs + [c], units, out, true)
    ensures |d| == 1 ==> Equivalent(lits, reprs, units0, cs + [c], units + {d[0]}, out, false)
    ensures Equivalent(lits, reprs, units0, cs + [c], units, out + [d], false)
  {
    hide AllVal, ClausesOf, Models, SomeVal;
    forall m
      ensures AllVal(lits, reprs, m, cs + [c]) <==> AllVal(lits, reprs, m, cs) && SomeVal(lits, reprs, m, c)
      ensures Models(m, ClausesOf(out + [d])) <==> Models(m, ClausesOf(out)) && Satisfies(m, Lits(d))
      ensures |d| == 0 ==> !Satisfies(m, Lits(d))
      ensures |d| == 1 ==> (AllHold(m, units + {d[0]}) <==> AllHold(m, units) && Satisfies(m, Lits(d)))
    {
      AllValMore(lits, reprs, m, cs, c);
      ClausesMore(m, out, d);
      if |d| == 1 {
        assert d == [d[0]] && Lits(d) == {d[0]};
        UnitMeaning(m, d[0]);
        assert d[0] in units + {d[0]};
      }
    }
  }

  ghost predicate NoShort(cs: seq<seq<int>>) {
    forall i :: 0 <= i < |cs| ==> |cs[i]| >= 2
  }

  ghost predicate NoRepeats(cs: seq<seq<int>>) {
    forall i :: 0 <= i < |cs| ==> NoDuplicates(cs[i]) && NoComplement(Lits(cs[i]))
  }

  /** Units are assigned and the empty clause is reported, so neither is left among the clauses. */
  ghost predicate Shaped(cs: seq<seq<int>>, units0: set<int>, out: seq<seq<int>>, units: set<int>) {
    && (NoShort(cs) ==> NoShort(out)) && (NoRepeats(cs) ==> NoRepeats(out))
    && (NoComplement(units0) ==> NoComplement(units))
  }

  lemma ShapedMore(cs: seq<seq<int>>, units0: set<int>, out: seq<seq<int>>, units: set<int>, i: int)
    requires 0 <= i < |cs| && Shaped(cs, units0, out, units)
    ensures Shaped(cs, units0, out + [cs[i]], units)
  {
  }

  lemma ShapedRewritten(lits: set<int>, reprs: map<int, int>, cs: seq<seq<int>>, units0: set<int>, out: seq<seq<int>>, units: set<int>, c: seq<int>, d: seq<int>)
    requires Shaped(cs, units0, out, units) && Rewritten(lits, reprs, units, c, d) && UnitsOk(lits, reprs, units) && Substitution(lits, reprs)
    ensures |d| >= 2 ==> Shaped(cs, units0, out + [d], units)
    ensures |d| == 1 ==> Shaped(cs, units0, out, units + {d[0]})
  {
    assert |d| == 1 ==> d[0] in d && d[0] != 0;
    assert forall l :: l in d ==> l in lits && -l !in d;
  }

  /** Rewrites all clauses. */
  method SubstituteClauses(lits: set<int>, reprs: map<int, int>, units0: set<int>, cs: seq<seq<int>>) returns (units: set<int>, out: seq<seq<int>>, unsat: bool)
    requires Substitution(lits, reprs) && UnitsOk(lits, reprs, units0) && forall i :: 0 <= i < |cs| ==> ClauseOk(lits, units0, cs[i])
    ensures units0 <= units && UnitsOk(lits, reprs, units)
    ensures forall m :: AllHold(m, units0) && AllVal(lits, reprs, m, cs) ==> !unsat
    ensures !unsat ==> Equivalent(lits, reprs, units0, cs, units, out, unsat)
    ensures forall i :: 0 <= i < |out| ==> OnlyReprs(reprs, out[i])
    ensures !unsat ==> Shaped(cs, units0, out, units)
  {
    hide Shaped, Equivalent, Rewritten, UnitsOk, ClauseOk, SomeVal, AllVal, AllHold, Models;
    units, out, unsat := units0, [], false;
    StartEquivalent(lits, reprs, units0);
    ShapedStart(cs, units0);
    var i := 0;
    while i < |cs|
      invariant 0 <= i <= |cs| && units0 <= units && UnitsOk(lits, reprs, units) && !unsat
      invariant Equivalent(lits, reprs, units0, cs[..i], units, out, unsat)
      invariant forall k :: 0 <= k < |out| ==> OnlyReprs(reprs, out[k])
      invariant Shaped(cs, units0, out, units)
    {
      var c := cs[i];
      assert cs[..i + 1] == cs[..i] + [c];
      var same := AllFixed(reprs, c);
      if same {
        Unchanged(lits, reprs, units0, cs[..i], units, out, unsat, c);
        ShapedMore(cs, units0, out, units, i);
        out := out + [c];
      } else {
        MoreUnits(lits, units0, units, c);
        var satisfied, d := SubstituteClause(lits, reprs, units, c);
        if satisfied {
          DropSatisfied(lits, reprs, units0, cs[..i], units, out, unsat, c);
        } else {
          Replace(lits, reprs, units0, cs[..i], units, out, c, d);
          RewrittenReprs(lits, reprs, units, c, d);
          ShapedRewritten(lits, reprs, cs, units0, out, units, c, d);
          if |d| == 0 {
            unsat := true;
            EmptyRefutes(lits, reprs, units0, cs, units, out, i);
            return;
          } else if |d| == 1 {
            MoreUnitsOk(lits, reprs, units, c, d);
            units := units + {d[0]};
          } else {
            out := out + [d];
          }
        }
      }
      i := i + 1;
    }
    assert cs[..|cs|] == cs;
  }

  lemma ShapedStart(cs: seq<seq<int>>, units: set<int>)
    ensures Shaped(cs, units, [], units)
  {
  }

  lemma StartEquivalent(lits: set<int>, reprs: map<int, int>, units: set<int>)
    ensures Equivalent(lits, reprs, units, [], units, [], false)
  {
  }

  method AllFixed(reprs: map<int, int>, c: seq<int>) returns (same: bool)
    ensures same <==> OnlyReprs(reprs, c)
  {
    var j := 0;
    while j < |c|
      invariant 0 <= j <= |c| && forall k :: 0 <= k < j ==> c[k] in reprs && reprs[c[k]] == c[k]
    {
      var l := c[j];
      assert l in c;
      if l !in reprs || reprs[l] != l {
        return false;
      }
      j := j + 1;
    }
    same := true;
  }

  lemma MoreUnits(lits: set<int>, units0: set<int>, units: set<int>, c: seq<int>)
    requires ClauseOk(lits, units0, c) && units0 <= units
    ensures ClauseOk(lits, units, c)
  {
  }

  lemma RewrittenReprs(lits: set<int>, reprs: map<int, int>, units: set<int>, c: seq<int>, d: seq<int>)
    requires Rewritten(lits, reprs, units, c, d)
    ensures OnlyReprs(reprs, d)
  {
  }

  lemma MoreUnitsOk(lits: set<int>, reprs: map<int, int>, units: set<int>, c: seq<int>, d: seq<int>)
    requires Substitution(lits, reprs) && UnitsOk(lits, reprs, units) && Rewritten(lits, reprs, units, c, d) && |d| == 1
    ensures UnitsOk(lits, reprs, units + {d[0]})
  {
    assert d[0] in d;
  }

  lemma EmptyRefutes(lits: set<int>, reprs: map<int, int>, units0: set<int>, cs: seq<seq<int>>, units: set<int>, out: seq<seq<int>>, i: int)
    requires 0 <= i < |cs| && Equivalent(lits, reprs, units0, cs[..i + 1], units, out, true)
    ensures forall m :: AllHold(m, units0) ==> !AllVal(lits, reprs, m, cs)
  {
    hide SomeVal;
    forall m | AllHold(m, units0)
      ensures !AllVal(lits, reprs, m, cs)
    {
      assert !AllVal(lits, reprs, m, cs[..i + 1]);
      assert forall k :: 0 <= k < |cs[..i + 1]| ==> cs[..i + 1][k] == cs[k];
    }
  }

  // ----- recovering substituted variables -----

  /** The two binary clauses that fix a substituted variable. */
  function Pair(v: int, other: int): seq<Entry> {
    [Entry([-v], [-v, other]), Entry([v], [v, -other])]
  }

  function Copy(m: set<int>, v: int, other: int): set<int> {
    if Holds(m, other) then m + {v} else m - {v}
  }

  lemma PairCopies(m: set<int>, v: int, other: int)
    requires v > 0 && other != 0 && other != v && other != -v
    ensures Reconstruct(Pair(v, other), m) == Copy(m, v, other)
  {
    var es := Pair(v, other);
    var e1, e2 := es[0], es[1];
    assert es[..1] == [e1] && [e1][..0] == [];
    var m2 := Undo(m, e2);
    assert Reconstruct(es, m) == Reconstruct([e1], m2) == Undo(m2, e1);
    PairTrue(m, v, -other);
    PairTrue(m2, -v, other);
    if !True(m, e2.clause) {
      FlipSingle(m, v, e2.clause);
    }
    if !True(m2, e1.clause) {
      FlipSingle(m2, -v, e1.clause);
    }
  }

  lemma PairTrue(m: set<int>, a: int, b: int)
    ensures True(m, [a, b]) <==> Holds(m, a) || Holds(m, b)
  {
    assert a in [a, b] && b in [a, b];
  }

  function Entries(vs: seq<int>, reprs: map<int, int>): seq<Entry>
    requires forall i :: 0 <= i < |vs| ==> vs[i] in reprs
  {
    if vs == [] then [] else Entries(vs[..|vs| - 1], reprs) + Pair(vs[|vs| - 1], reprs[vs[|vs| - 1]])
  }

  /** Substituted variables. */
  ghost predicate Substituted(lits: set<int>, reprs: map<int, int>, vs: seq<int>) {
    forall i :: 0 <= i < |vs| ==> vs[i] > 0 && vs[i] in lits && vs[i] in reprs && reprs[vs[i]] != vs[i]
  }

  lemma {:induction false} EntriesCopy(lits: set<int>, reprs: map<int, int>, vs: seq<int>, m: set<int>, x: int)
    requires Substitution(lits, reprs) && Substituted(lits, reprs, vs) && x > 0 && forall v :: v in lits ==> reprs[v] != -v
    ensures x in Reconstruct(Entries(vs, reprs), m) <==> if x in vs then Holds(m, reprs[x]) else x in m
    decreases |vs|
  {
    if vs != [] {
      var n := |vs| - 1;
      var v := vs[n];
      var r := reprs[v];
      var pre, m1 := vs[..n], Copy(m, v, r);
      assert vs == pre + [v];
      assert r != 0 && r != v && r != -v;
      ReconstructConcat(Entries(pre, reprs), Pair(v, r), m);
      PairCopies(m, v, r);
      EntriesCopy(lits, reprs, pre, m1, x);
      if x in pre {
        CopyKeeps(lits, reprs, m, v, x);
      }
      hide Reconstruct, Substitution, Pair, Entries, Substituted;
      assert Copy(m, v, r) == if Holds(m, r) then m + {v} else m - {v};
    }
  }

  lemma CopyKeeps(lits: set<int>, reprs: map<int, int>, m: set<int>, v: int, x: int)
    requires Substitution(lits, reprs) && v > 0 && v in lits && x in lits && reprs[v] != v
    ensures Holds(Copy(m, v, reprs[v]), reprs[x]) <==> Holds(m, reprs[x])
  {
    ReprNotSubstituted(lits, reprs, v, x);
  }

  /** A representative is never itself substituted. */
  lemma ReprNotSubstituted(lits: set<int>, reprs: map<int, int>, v: int, x: int)
    requires Substitution(lits, reprs) && v > 0 && v in lits && x in lits && reprs[v] != v
    ensures reprs[x] != v && reprs[x] != -v
  {
    assert reprs[-v] == -reprs[v];
    assert reprs[reprs[x]] == reprs[x];
  }

  /** After recovery every literal has the value of its representative. */
  lemma RecoveredVal(lits: set<int>, reprs: map<int, int>, vs: seq<int>, m: set<int>, l: int)
    requires Substitution(lits, reprs) && Substituted(lits, reprs, vs) && l != 0 && forall v :: v in lits ==> reprs[v] != -v
    requires forall v :: v in lits && v > 0 && reprs[v] != v ==> v in vs
    ensures Holds(Reconstruct(Entries(vs, reprs), m), l) <==> Val(lits, reprs, m, l)
  {
    var x := if l > 0 then l else -l;
    EntriesCopy(lits, reprs, vs, m, x);
    if l in lits {
      assert reprs[-l] == -reprs[l] && -(-l) == l;
    }
  }

  // ----- the implication graph of the binary clauses -----

  function ImpliedBy(c: seq<int>, p: int, lits: set<int>): seq<int> {
    if |c| == 2 && c[0] == -p && c[1] in lits then [c[1]]
    else if |c| == 2 && c[1] == -p && c[0] in lits then [c[0]]
    else []
  }

  function Successors(cs: seq<seq<int>>, p: int, lits: set<int>): seq<int> {
    if cs == [] then [] else Successors(cs[..|cs| - 1], p, lits) + ImpliedBy(cs[|cs| - 1], p, lits)
  }

  ghost predicate Binary(cs: seq<seq<int>>, a: int, b: int) {
    [a, b] in cs || [b, a] in cs
  }

  lemma {:induction false} SuccessorsMean(cs: seq<seq<int>>, p: int, lits: set<int>, c: int)
    requires p in lits && -p in lits
    ensures c in Successors(cs, p, lits) ==> c in lits && Binary(cs, -p, c)
    ensures c in lits && c != -p && Binary(cs, -p, c) ==> c in Successors(cs, p, lits)
  {
    if cs != [] {
      var n := |cs| - 1;
      SuccessorsMean(cs[..n], p, lits, c);
      assert cs == cs[..n] + [cs[n]];
      var last := cs[n];
      if |last| == 2 {
        assert last == [last[0], last[1]];
      }
    }
  }

  function GraphOf(cs: seq<seq<int>>, lits: set<int>): Graph {
    Graph(lits, map p | p in lits :: Successors(cs, p, lits))
  }

  lemma GraphOfOk(cs: seq<seq<int>>, lits: set<int>)
    requires 0 !in lits && (forall l :: l in lits ==> -l in lits) && forall i :: 0 <= i < |cs| ==> NoDuplicates(cs[i])
    ensures var g := GraphOf(cs, lits); GraphOk(g) && Skew(g) && Implications(ClausesOf(cs), g)
  {
    var g := GraphOf(cs, lits);
    forall p, c
      ensures Edge(g, p, c) <==> p in lits && c in lits && Binary(cs, -p, c)
    {
      if p in lits {
        SuccessorsMean(cs, p, lits, c);
        NoDuplicatePair(cs, -p);
      }
    }
    hide Edge;
    forall p, c | Edge(g, p, c)
      ensures Edge(g, -c, -p)
    {
      assert -(-c) == c && Binary(cs, c, -p);
    }
    forall p, c | Edge(g, p, c)
      ensures p != 0 && {-p, c} in ClausesOf(cs)
    {
      var d := if [-p, c] in cs then [-p, c] else [c, -p];
      assert Lits(d) == {-p, c};
    }
  }

  lemma NoDuplicatePair(cs: seq<seq<int>>, c: int)
    requires forall i :: 0 <= i < |cs| ==> NoDuplicates(cs[i])
    ensures !Binary(cs, c, c)
  {
    assert !NoDuplicates([c, c]) by {
      assert [c, c][0] == [c, c][1];
    }
  }

  // ----- one round -----

  lemma ComplementRefutes(f: set<Clause>, g: Graph)
    requires Implications(f, g) && Contradictory(g) && 0 !in g.lits
    ensures forall m :: !Models(m, f)
  {
    hide Models, Edge, Reach;
    var p :| p in g.lits && Mutual(g, p, -p);
    forall m
      ensures !Models(m, f)
    {
      if Models(m, f) {
        MutualEqual(f, g, p, -p, m);
      }
    }
  }

  /** The positive literals that have another representative. */
  method SubstitutedVariables(roots: seq<int>, reprs: map<int, int>, ghost lits: set<int>) returns (vs: seq<int>)
    requires (forall l :: l in lits <==> l in roots) && forall l :: l in lits ==> l in reprs
    ensures Substituted(lits, reprs, vs) && forall v :: v in lits && v > 0 && reprs[v] != v ==> v in vs
  {
    vs := [];
    var i := 0;
    while i < |roots|
      invariant 0 <= i <= |roots| && Substituted(lits, reprs, vs)
      invariant forall k :: 0 <= k < i && roots[k] > 0 && roots[k] in reprs && reprs[roots[k]] != roots[k] ==> roots[k] in vs
    {
      var l := roots[i];
      assert l in roots;
      if l > 0 && reprs[l] != l {
        vs := vs + [l];
      }
      i := i + 1;
    }
  }

  /** What a clause of the original says about its representatives, in a model of the original. */
  lemma OriginalVals(f: set<Clause>, g: Graph, frozen: set<int>, reprs: map<int, int>, cs: seq<seq<int>>, m: set<int>)
    requires Table(g, frozen, reprs) && Implications(f, g) && Models(m, f) && ClausesOf(cs) <= f
    ensures AllVal(g.lits, reprs, m, cs)
  {
    hide Table, Edge;
    forall i | 0 <= i < |cs|
      ensures SomeVal(g.lits, reprs, m, cs[i])
    {
      assert cs[i] in cs && Lits(cs[i]) in f;
      var l :| l in Lits(cs[i]) && Holds(m, l);
      if l in g.lits {
        ReprEqual(f, g, frozen, reprs, l, m);
      }
      assert Val(g.lits, reprs, m, l);
    }
  }

  /** A model of the rewritten clauses, with the substituted variables recovered. */
  lemma RecoveredModel(lits: set<int>, reprs: map<int, int>, vs: seq<int>, cs: seq<seq<int>>, units0: set<int>, units: set<int>, m: set<int>)
    requires Substitution(lits, reprs) && Substituted(lits, reprs, vs) && (forall v :: v in lits ==> reprs[v] != -v)
    requires forall v :: v in lits && v > 0 && reprs[v] != v ==> v in vs
    requires AllVal(lits, reprs, m, cs) && AllHold(m, units) && units0 <= units && UnitsOk(lits, reprs, units)
    requires forall i :: 0 <= i < |cs| ==> Proper(cs[i])
    ensures var r := Reconstruct(Entries(vs, reprs), m); Models(r, ClausesOf(cs) + Units(units0))
  {
    var r := Reconstruct(Entries(vs, reprs), m);
    forall l: int | l != 0
      ensures Holds(r, l) <==> Val(lits, reprs, m, l)
    {
      RecoveredVal(lits, reprs, vs, m, l);
    }
    hide Substitution, Reconstruct, Entries, Val;
    forall cl | cl in ClausesOf(cs)
      ensures Satisfies(r, cl)
    {
      var i :| 0 <= i < |cs| && Lits(cs[i]) == cl;
      assert SomeVal(lits, reprs, m, cs[i]);
      var l :| l in cs[i] && Val(lits, reprs, m, l);
      assert l != 0 && l in cl;
    }
    forall u | u in units0
      ensures Holds(r, u)
    {
      UnitVal(lits, reprs, units, m, u);
    }
    UnitsMeaning(r, units0);
    ModelsUnion(r, ClausesOf(cs), Units(units0));
  }

  /** What the solver passes to a round: literals with their negations, all of them roots; clauses over
      them and the assigned literals. */
  ghost predicate RoundInput(cs: seq<seq<int>>, units0: set<int>, lits: set<int>, roots: seq<int>, frozen: set<int>) {
    && 0 !in lits && (forall l :: l in lits ==> -l in lits) && (forall l :: l in lits <==> l in roots) && (forall l :: l in frozen ==> -l in frozen)
    && (forall i :: 0 <= i < |cs| ==> NoDuplicates(cs[i]) && Proper(cs[i]) && ClauseOk(lits, units0, cs[i]))
    && (forall u :: u in units0 ==> u != 0 && u !in lits && -u !in lits)
  }

  lemma RoundGraph(cs: seq<seq<int>>, units0: set<int>, lits: set<int>, roots: seq<int>, frozen: set<int>)
    requires RoundInput(cs, units0, lits, roots, frozen)
    ensures var g := GraphOf(cs, lits);
      g.lits == lits && GraphOk(g) && Skew(g) && Implications(ClausesOf(cs), g) && 0 !in g.lits && forall l :: l in g.lits <==> l in roots
  {
    hide ClauseOk, Proper, NoDuplicates;
    GraphOfOk(cs, lits);
  }

  lemma RoundTable(g: Graph, cs: seq<seq<int>>, units0: set<int>, lits: set<int>, roots: seq<int>, frozen: set<int>, reprs: map<int, int>)
    requires RoundInput(cs, units0, lits, roots, frozen) && g.lits == lits && GraphOk(g) && Skew(g)
    requires forall l :: l in g.lits ==> l in reprs && IsRepr(g, frozen, l, reprs[l]) && !Mutual(g, l, -l)
    ensures Table(g, frozen, reprs) && Substitution(lits, reprs) && forall v :: v in lits ==> v in reprs && reprs[v] != -v
  {
    hide GraphOk, Skew, IsRepr, Mutual, ClauseOk, Substitution;
    TableSubstitution(g, frozen, reprs);
    NoSelfNegation(g, frozen, reprs);
  }

  lemma RoundUnits(cs: seq<seq<int>>, units0: set<int>, lits: set<int>, roots: seq<int>, frozen: set<int>, reprs: map<int, int>)
    requires RoundInput(cs, units0, lits, roots, frozen)
    ensures UnitsOk(lits, reprs, units0) && forall i :: 0 <= i < |cs| ==> ClauseOk(lits, units0, cs[i]) && Proper(cs[i])
    ensures forall l :: l in lits <==> l in roots
  {
    hide ClauseOk, Proper, NoDuplicates;
  }

  /** The round as a whole: a formula with contradictory equivalences is refuted; otherwise the
      rewritten formula follows from the original, mentions only representatives, and the pushed
      entries turn each of its models into one of the original. */
  method DecomposeRound(cs: seq<seq<int>>, units0: set<int>, lits: set<int>, roots: seq<int>, frozen: set<int>)
    returns (out: seq<seq<int>>, units: set<int>, es: seq<Entry>, unsat: bool)
    requires RoundInput(cs, units0, lits, roots, frozen)
    ensures forall m :: Models(m, ClausesOf(cs) + Units(units0)) ==> !unsat && Models(m, ClausesOf(out) + Units(units))
    ensures !unsat ==> Recovers(ClausesOf(out) + Units(units), ClausesOf(cs) + Units(units0), es)
    ensures forall i, l :: 0 <= i < |out| && l in out[i] && l in lits ==> IsRepr(GraphOf(cs, lits), frozen, l, l)
    ensures !unsat ==> Shaped(cs, units0, out, units)
  {
    hide Shaped, RoundInput, IsRepr, Mutual, GraphOk, Skew, Implications, Contradictory, Recovers, Models, GraphOf;
    out, units, es, unsat := [], {}, [], true;
    var g := GraphOf(cs, lits);
    RoundGraph(cs, units0, lits, roots, frozen);
    var search := new Search(g, frozen);
    search.Components(roots);
    if search.unsat {
      ComplementRefutes(ClausesOf(cs), g);
      NoModelOfUnion(ClausesOf(cs), Units(units0));
      return;
    }
    out, units, es, unsat := Rewrite(g, search.reprs, cs, units0, lits, roots, frozen);
  }

  /** The second half of a round, once all representatives are known. */
  method Rewrite(ghost g: Graph, reprs: map<int, int>, cs: seq<seq<int>>, units0: set<int>, lits: set<int>, roots: seq<int>, ghost frozen: set<int>)
    returns (out: seq<seq<int>>, units: set<int>, es: seq<Entry>, unsat: bool)
    requires RoundInput(cs, units0, lits, roots, frozen) && g.lits == lits && GraphOk(g) && Skew(g) && Implications(ClausesOf(cs), g)
    requires forall l :: l in g.lits ==> l in reprs && IsRepr(g, frozen, l, reprs[l]) && !Mutual(g, l, -l)
    ensures forall m :: Models(m, ClausesOf(cs) + Units(units0)) ==> !unsat && Models(m, ClausesOf(out) + Units(units))
    ensures !unsat ==> Recovers(ClausesOf(out) + Units(units), ClausesOf(cs) + Units(units0), es)
    ensures forall i, l :: 0 <= i < |out| && l in out[i] && l in lits ==> IsRepr(g, frozen, l, l)
    ensures !unsat ==> Shaped(cs, units0, out, units)
  {
    hide Shaped, RoundInput, Equivalent, ClauseOk, Proper, AllVal, IsRepr, Mutual, GraphOk, Skew, Implications, Recovers, Models, AllHold,
      Table, Substitution, UnitsOk, Substituted, OnlyReprs;
    RoundTable(g, cs, units0, lits, roots, frozen, reprs);
    RoundUnits(cs, units0, lits, roots, frozen, reprs);
    units, out, unsat := SubstituteClauses(lits, reprs, units0, cs);
    var vs := SubstitutedVariables(roots, reprs, lits);
    SubstitutedInTable(lits, reprs, vs);
    es := Entries(vs, reprs);
    AllForward(g, frozen, reprs, cs, units0, units, out, unsat);
    RepresentativesOnly(g, frozen, lits, reprs, out);
    if !unsat {
      AllRecovered(lits, reprs, vs, cs, units0, units, out);
    }
  }

  lemma RepresentativesOnly(g: Graph, frozen: set<int>, lits: set<int>, reprs: map<int, int>, out: seq<seq<int>>)
    requires g.lits == lits && forall l :: l in g.lits ==> l in reprs && IsRepr(g, frozen, l, reprs[l])
    requires forall i :: 0 <= i < |out| ==> OnlyReprs(reprs, out[i])
    ensures forall i, l :: 0 <= i < |out| && l in out[i] && l in lits ==> IsRepr(g, frozen, l, l)
  {
    hide IsRepr;
  }

  lemma SubstitutedInTable(lits: set<int>, reprs: map<int, int>, vs: seq<int>)
    requires Substituted(lits, reprs, vs)
    ensures forall v :: v in vs ==> v in reprs
  {
  }

  lemma AllForward(g: Graph, frozen: set<int>, reprs: map<int, int>, cs: seq<seq<int>>, units0: set<int>, units: set<int>, out: seq<seq<int>>, unsat: bool)
    requires Table(g, frozen, reprs) && Implications(ClausesOf(cs), g)
    requires forall m :: AllHold(m, units0) && AllVal(g.lits, reprs, m, cs) ==> !unsat
    requires !unsat ==> Equivalent(g.lits, reprs, units0, cs, units, out, unsat)
    ensures forall m :: Models(m, ClausesOf(cs) + Units(units0)) ==> !unsat && Models(m, ClausesOf(out) + Units(units))
  {
    hide Table, Implications, Equivalent, Models, AllVal, AllHold;
    forall m | Models(m, ClausesOf(cs) + Units(units0))
      ensures !unsat && Models(m, ClausesOf(out) + Units(units))
    {
      Forward(g, frozen, reprs, cs, units0, units, out, unsat, m);
    }
  }

  lemma AllRecovered(lits: set<int>, reprs: map<int, int>, vs: seq<int>, cs: seq<seq<int>>, units0: set<int>, units: set<int>, out: seq<seq<int>>)
    requires Substitution(lits, reprs) && Substituted(lits, reprs, vs) && (forall v :: v in lits ==> reprs[v] != -v)
    requires forall v :: v in lits && v > 0 && reprs[v] != v ==> v in vs
    requires units0 <= units && UnitsOk(lits, reprs, units) && Equivalent(lits, reprs, units0, cs, units, out, false)
    requires forall i :: 0 <= i < |cs| ==> Proper(cs[i])
    ensures Recovers(ClausesOf(out) + Units(units), ClausesOf(cs) + Units(units0), Entries(vs, reprs))
  {
    hide Substitution, UnitsOk, Equivalent, Models, AllVal, AllHold, Proper;
    forall m | Models(m, ClausesOf(out) + Units(units))
      ensures Models(Reconstruct(Entries(vs, reprs), m), ClausesOf(cs) + Units(units0))
    {
      Backward(lits, reprs, cs, units0, units, out, m);
      RecoveredModel(lits, reprs, vs, cs, units0, units, m);
    }
  }

  lemma NoModelOfUnion(f: set<Clause>, h: set<Clause>)
    requires forall m :: !Models(m, f)
    ensures forall m :: !Models(m, f + h)
  {
    hide Models;
    forall m
      ensures !Models(m, f + h)
    {
      ModelsUnion(m, f, h);
    }
  }

  lemma NoSelfNegation(g: Graph, frozen: set<int>, reprs: map<int, int>)
    requires Table(g, frozen, reprs)
    ensures forall v :: v in g.lits ==> reprs[v] != -v
  {
    hide Mutual;
  }

  lemma Forward(g: Graph, frozen: set<int>, reprs: map<int, int>, cs: seq<seq<int>>, units0: set<int>, units: set<int>, out: seq<seq<int>>, unsat: bool, m: set<int>)
    requires Table(g, frozen, reprs) && Implications(ClausesOf(cs), g) && Models(m, ClausesOf(cs) + Units(units0))
    requires AllHold(m, units0) && AllVal(g.lits, reprs, m, cs) ==> !unsat
    requires !unsat ==> Equivalent(g.lits, reprs, units0, cs, units, out, unsat)
    ensures !unsat && Models(m, ClausesOf(out) + Units(units))
  {
    hide Table, Models, AllVal, Implications, AllHold;
    ModelsUnion(m, ClausesOf(cs), Units(units0));
    UnitsMeaning(m, units0);
    OriginalVals(ClausesOf(cs), g, frozen, reprs, cs, m);
    UnitsMeaning(m, units);
    ModelsUnion(m, ClausesOf(out), Units(units));
  }

  lemma Backward(lits: set<int>, reprs: map<int, int>, cs: seq<seq<int>>, units0: set<int>, units: set<int>, out: seq<seq<int>>, m: set<int>)
    requires Equivalent(lits, reprs, units0, cs, units, out, false) && Models(m, ClausesOf(out) + Units(units))
    ensures AllVal(lits, reprs, m, cs) && AllHold(m, units)
  {
    hide Models, AllVal;
    ModelsUnion(m, ClausesOf(out), Units(units));
    UnitsMeaning(m, units);
  }
}
