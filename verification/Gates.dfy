/** Detection of equivalences and AND gates around a pivot.  A gate found defines the pivot, which is
    what elimination by substitution relies on. */
module Gates {
  import opened Cnf
  import opened Extension
  import opened Elim

  /** Occurrence list with gate flags. */
  function Flag(cs: seq<seq<int>>, g: set<int>): (r: seq<PivotClause>)
    ensures |r| == |cs| && forall i :: 0 <= i < |cs| ==> r[i] == PivotClause(cs[i], i in g)
  {
    seq(|cs|, i requires 0 <= i < |cs| => PivotClause(cs[i], i in g))
  }

  ghost predicate AllProper(cs: seq<seq<int>>) {
    forall i :: 0 <= i < |cs| ==> Proper(cs[i])
  }

  predicate Satisfied(c: seq<int>, units: set<int>) {
    exists l :: l in c && IsTrue(units, l)
  }

  /** With the units respected, a flagged clause forces its phase exactly when its live part is false. */
  lemma ForcesLive(cs: seq<seq<int>>, g: set<int>, p: int, units: set<int>, m: set<int>)
    requires AllProper(cs) && AllHold(m, units) && forall i :: i in g ==> 0 <= i < |cs|
    ensures Forces(Flag(cs, g), p, m) <==> exists i :: i in g && !Satisfies(m, Live(cs[i], p, units))
  {
    hide Rest, Live, Satisfies;
    forall i | 0 <= i < |cs|
      ensures Rest(m, Lits(cs[i]), p) <==> Satisfies(m, Live(cs[i], p, units))
    {
      LiveRest(cs[i], p, units, m);
    }
    var fs := Flag(cs, g);
    if i :| i in g && !Satisfies(m, Live(cs[i], p, units)) {
      assert fs[i].gate && !Rest(m, Lits(fs[i].lits), p);
    }
    if Forces(fs, p, m) {
      var i :| 0 <= i < |fs| && fs[i].gate && !Rest(m, Lits(fs[i].lits), p);
      assert i in g;
    }
  }

  /** Binary after removing false literals: `s` is the only other literal and nothing is true. */
  ghost predicate BinaryWith(c: seq<int>, first: int, units: set<int>, s: int) {
    s != 0 && Live(c, first, units) == {s} && NoneTrue(c, first, units)
  }

  /** The other literal of a clause that is binary after removing false literals, else 0. */
  method SecondLiteral(c: seq<int>, first: int, units: set<int>) returns (second: int)
    requires Proper(c) && NoComplement(units)
    ensures second != 0 ==> BinaryWith(c, first, units, second)
    ensures second == 0 ==> forall s :: !BinaryWith(c, first, units, s)
  {
    second := 0;
    var i := 0;
    while i < |c|
      invariant 0 <= i <= |c|
      invariant Live(c[..i], first, units) == if second == 0 then {} else {second}
      invariant second != 0 ==> second in Live(c, first, units)
      invariant NoneTrue(c[..i], first, units)
    {
      assert c[..i + 1] == c[..i] + [c[i]];
      if c[i] != first && !IsFalse(units, c[i]) {
        assert c[i] in Live(c, first, units);
        if IsTrue(units, c[i]) {
          assert c[i] in c;
          return 0;
        }
        if second != 0 && second != c[i] {
          TwoLive(c, first, units, second, c[i]);
          return 0;
        }
        second := c[i];
      }
      i := i + 1;
    }
    assert c[..|c|] == c;
  }

  lemma TwoLive(c: seq<int>, first: int, units: set<int>, a: int, b: int)
    requires a in Live(c, first, units) && b in Live(c, first, units) && a != b
    ensures forall s :: !BinaryWith(c, first, units, s)
  {
  }

  ghost predicate NoneSatisfied(cs: seq<seq<int>>, g: set<int>, units: set<int>) {
    forall i :: i in g && 0 <= i < |cs| ==> !Satisfied(cs[i], units)
  }

  lemma NoneTrueUnsatisfied(c: seq<int>, p: int, units: set<int>)
    requires NoneTrue(c, p, units) && p !in units
    ensures !Satisfied(c, units)
  {
  }

  // ----- equivalences -----

  /** The pivot equals the negation of `s`. */
  lemma EquivalenceDefines(ps: seq<seq<int>>, ns: seq<seq<int>>, p: int, units: set<int>, i: int, j: int, s: int)
    requires AllProper(ps) && AllProper(ns) && 0 <= i < |ps| && 0 <= j < |ns| && s != 0
    requires Live(ps[i], p, units) == {-s} && Live(ns[j], -p, units) == {s}
    ensures Defines(Flag(ps, {i}), Flag(ns, {j}), p, units)
  {
    hide Live, Flag, Forces;
    forall m | AllHold(m, units)
      ensures Forces(Flag(ps, {i}), p, m) <==> !Forces(Flag(ns, {j}), -p, m)
    {
      ForcesLive(ps, {i}, p, units, m);
      ForcesLive(ns, {j}, -p, units, m);
      UnitMeaning(m, s);
      UnitMeaning(m, -s);
    }
  }

  /** Literals implied by the pivot clauses together with the units. */
  ghost predicate Implied(ps: seq<seq<int>>, ns: seq<seq<int>>, units: set<int>, derived: set<int>) {
    forall m :: AllHold(m, units) && AllSatisfied(m, ps) && AllSatisfied(m, ns) ==> AllHold(m, derived)
  }

  ghost predicate AllSatisfied(m: set<int>, cs: seq<seq<int>>) {
    forall i :: 0 <= i < |cs| ==> Satisfies(m, Lits(cs[i]))
  }

  lemma BinaryMeaning(c: seq<int>, first: int, units: set<int>, s: int, m: set<int>)
    requires Proper(c) && Live(c, first, units) == {s} && AllHold(m, units) && Satisfies(m, Lits(c))
    ensures Holds(m, first) || Holds(m, s)
  {
    var l :| l in Lits(c) && Holds(m, l);
    if l != first {
      assert Rest(m, Lits(c), first);
      LiveRest(c, first, units, m);
      UnitMeaning(m, s);
    }
  }

  /** Some clause is binary with this other literal. */
  ghost predicate HasBinary(ps: seq<seq<int>>, p: int, units: set<int>, s: int) {
    exists i :: 0 <= i < |ps| && BinaryWith(ps[i], p, units, s)
  }

  /** Two binary clauses whose other literals are complementary. */
  ghost predicate HasPair(ps: seq<seq<int>>, p: int, units: set<int>) {
    exists s :: HasBinary(ps, p, units, s) && ComplementBinary(ps, p, units, s)
  }

  ghost predicate ComplementBinary(ps: seq<seq<int>>, p: int, units: set<int>, s: int) {
    HasBinary(ps, p, units, -s)
  }

  /** Exactly the other literals of binary clauses with `p`; exactly two complementary ones make `p` a unit. */
  method MarkBinary(ps: seq<seq<int>>, p: int, units: set<int>) returns (unit: bool, marked: set<int>)
    requires AllProper(ps) && NoComplement(units)
    ensures !unit ==> forall s :: s in marked <==> HasBinary(ps, p, units, s)
    ensures unit <==> HasPair(ps, p, units)
    ensures unit ==> forall m :: AllHold(m, units) && AllSatisfied(m, ps) ==> Holds(m, p)
  {
    hide Live, AllSatisfied, NoneTrue;
    unit, marked := false, {};
    var i := 0;
    while i < |ps|
      invariant 0 <= i <= |ps|
      invariant forall s :: s in marked ==> exists k :: 0 <= k < i && BinaryWith(ps[k], p, units, s)
      invariant forall k, s :: 0 <= k < i && BinaryWith(ps[k], p, units, s) ==> s in marked
      invariant NoComplement(marked)
    {
      var s := SecondLiteral(ps[i], p, units);
      if s != 0 {
        if -s in marked {
          unit := true;
          ghost var k :| 0 <= k < i && BinaryWith(ps[k], p, units, -s);
          UnitFromPair(ps, p, units, i, k, s);
          assert HasBinary(ps, p, units, s) && ComplementBinary(ps, p, units, s);
          return;
        }
        marked := marked + {s};
        OtherUnique(ps[i], p, units, s);
      }
      i := i + 1;
    }
  }

  lemma OtherUnique(c: seq<int>, p: int, units: set<int>, s: int)
    requires BinaryWith(c, p, units, s)
    ensures forall t :: BinaryWith(c, p, units, t) ==> t == s
  {
    hide Live;
    assert forall t :: {t} == {s} ==> t in {s};
  }

  lemma UnitFromPair(ps: seq<seq<int>>, p: int, units: set<int>, i: int, k: int, s: int)
    requires AllProper(ps) && 0 <= i < |ps| && 0 <= k < |ps| && s != 0
    requires Live(ps[i], p, units) == {s} && Live(ps[k], p, units) == {-s}
    ensures forall m :: AllHold(m, units) && AllSatisfied(m, ps) ==> Holds(m, p)
  {
    hide Live;
    forall m | AllHold(m, units) && AllSatisfied(m, ps)
      ensures Holds(m, p)
    {
      BinaryMeaning(ps[i], p, units, s, m);
      BinaryMeaning(ps[k], p, units, -s, m);
    }
  }

  datatype GateResult = NoGate | UnitFound(l: int) | Gate(gp: set<int>, gn: set<int>)

  ghost predicate GoodResult(ps: seq<seq<int>>, ns: seq<seq<int>>, p: int, units: set<int>, r: GateResult) {
    match r
    case NoGate => true
    case UnitFound(l) => Implied(ps, ns, units, {l}) && l != 0 && l !in units && -l !in units
    case Gate(gp, gn) =>
      Defines(Flag(ps, gp), Flag(ns, gn), p, units) && NoneSatisfied(ps, gp, units) && NoneSatisfied(ns, gn, units)
  }

  /** The clause is not binary with a literal that is, in either phase, the partner of the pivot. */
  ghost predicate NoPartner(ps: seq<seq<int>>, p: int, c: seq<int>, q: int, units: set<int>) {
    forall s :: BinaryWith(c, q, units, s) ==> !HasBinary(ps, p, units, s) && !HasBinary(ps, p, units, -s)
  }

  /** Finds an equivalence of the pivot with another literal whenever there is one, or a unit. */
  method FindEquivalence(ps: seq<seq<int>>, ns: seq<seq<int>>, p: int, units: set<int>) returns (r: GateResult)
    requires AllProper(ps) && AllProper(ns) && p != 0 && p !in units && -p !in units && NoComplement(units)
    ensures GoodResult(ps, ns, p, units, r)
    ensures r.NoGate? ==> forall j :: 0 <= j < |ns| ==> NoPartner(ps, p, ns[j], -p, units)
    ensures HasPair(ps, p, units) ==> r == UnitFound(p)
  {
    hide Live, Defines, AllSatisfied, NoneTrue, NoneSatisfied, HasBinary, BinaryWith, HasPair;
    var unit, marked := MarkBinary(ps, p, units);
    if unit {
      return UnitFound(p);
    }
    var j := 0;
    while j < |ns|
      invariant 0 <= j <= |ns|
      invariant forall k :: 0 <= k < j ==> NoPartner(ps, p, ns[k], -p, units)
    {
      var s := SecondLiteral(ns[j], -p, units);
      if s != 0 {
        OtherUnique(ns[j], -p, units, s);
        if s in marked {
          UnitFromMarked(ps, ns, p, units, j, s);
          return UnitFound(s);
        }
        if -s in marked {
          var i := FindBinary(ps, p, units, -s);
          EquivalenceFound(ps, ns, p, units, i, j, s);
          return Gate({i}, {j});
        }
      }
      j := j + 1;
    }
    return NoGate;
  }

  lemma UnitFromMarked(ps: seq<seq<int>>, ns: seq<seq<int>>, p: int, units: set<int>, j: int, s: int)
    requires AllProper(ps) && AllProper(ns) && p != 0 && 0 <= j < |ns| && BinaryWith(ns[j], -p, units, s) && HasBinary(ps, p, units, s)
    ensures Implied(ps, ns, units, {s}) && s !in units && -s !in units
  {
    assert s in Live(ns[j], -p, units);
    hide Live, Implied;
    var i :| 0 <= i < |ps| && BinaryWith(ps[i], p, units, s);
    UnitFromBoth(ps, ns, p, units, i, j, s);
  }

  lemma EquivalenceFound(ps: seq<seq<int>>, ns: seq<seq<int>>, p: int, units: set<int>, i: int, j: int, s: int)
    requires AllProper(ps) && AllProper(ns) && p !in units && -p !in units && 0 <= i < |ps| && 0 <= j < |ns|
    requires BinaryWith(ps[i], p, units, -s) && BinaryWith(ns[j], -p, units, s)
    ensures GoodResult(ps, ns, p, units, Gate({i}, {j}))
  {
    hide Live, NoneTrue, Defines, Satisfied;
    EquivalenceDefines(ps, ns, p, units, i, j, s);
    NoneTrueUnsatisfied(ps[i], p, units);
    NoneTrueUnsatisfied(ns[j], -p, units);
  }

  /** Position of a binary clause that is known to exist. */
  method FindBinary(ps: seq<seq<int>>, p: int, units: set<int>, s: int) returns (i: int)
    requires AllProper(ps) && NoComplement(units) && HasBinary(ps, p, units, s)
    ensures 0 <= i < |ps| && BinaryWith(ps[i], p, units, s)
  {
    hide Live, NoneTrue;
    i := 0;
    while true
      invariant 0 <= i < |ps| && forall k :: 0 <= k < i ==> !BinaryWith(ps[k], p, units, s)
      decreases |ps| - i
    {
      var other := SecondLiteral(ps[i], p, units);
      if other == s && other != 0 {
        return;
      }
      if other != 0 {
        OtherUnique(ps[i], p, units, other);
      }
      i := i + 1;
    }
  }

  lemma UnitFromBoth(ps: seq<seq<int>>, ns: seq<seq<int>>, p: int, units: set<int>, i: int, j: int, s: int)
    requires AllProper(ps) && AllProper(ns) && 0 <= i < |ps| && 0 <= j < |ns| && p != 0
    requires Live(ps[i], p, units) == {s} && Live(ns[j], -p, units) == {s}
    ensures Implied(ps, ns, units, {s})
  {
    hide Live;
    forall m | AllHold(m, units) && AllSatisfied(m, ps) && AllSatisfied(m, ns)
      ensures AllHold(m, {s})
    {
      BinaryMeaning(ps[i], p, units, s, m);
      BinaryMeaning(ns[j], -p, units, s, m);
    }
  }

  // ----- AND gates -----

  /** Clause `i` is, after removing false literals, the pivot with the negation of `l`. */
  ghost predicate IsSide(ps: seq<seq<int>>, p: int, units: set<int>, i: int, l: int) {
    0 <= i < |ps| && BinaryWith(ps[i], p, units, -l)
  }

  /** Every flagged clause belongs to a base literal. */
  ghost predicate SidesOfBase(ps: seq<seq<int>>, p: int, units: set<int>, gp: set<int>, base: set<int>) {
    forall i :: i in gp ==> exists l :: l in base && IsSide(ps, p, units, i, l)
  }

  /** Every base literal has a flagged clause. */
  ghost predicate BaseHasSides(ps: seq<seq<int>>, p: int, units: set<int>, gp: set<int>, base: set<int>) {
    forall l :: l in base ==> exists i :: i in gp && IsSide(ps, p, units, i, l)
  }

  /** Base clause `j` of the negative side, and for each of its live literals a binary clause. */
  lemma AndDefines(ps: seq<seq<int>>, ns: seq<seq<int>>, p: int, units: set<int>, gp: set<int>, j: int, base: set<int>)
    requires AllProper(ps) && AllProper(ns) && 0 <= j < |ns| && base == Live(ns[j], -p, units)
    requires SidesOfBase(ps, p, units, gp, base) && BaseHasSides(ps, p, units, gp, base)
    ensures Defines(Flag(ps, gp), Flag(ns, {j}), p, units)
  {
    hide Flag, Forces, Live, SidesOfBase, BaseHasSides, IsSide;
    SidesInRange(ps, p, units, gp, base);
    LiveProper(ns[j], -p, units);
    forall m | AllHold(m, units)
      ensures Forces(Flag(ps, gp), p, m) <==> !Forces(Flag(ns, {j}), -p, m)
    {
      ForcesLive(ps, gp, p, units, m);
      ForcesLive(ns, {j}, -p, units, m);
      if Satisfies(m, base) {
        BaseTrue(ps, p, units, gp, base, m);
      }
      if i :| i in gp && !Satisfies(m, Live(ps[i], p, units)) {
        SideFalse(ps, p, units, gp, base, m, i);
      }
    }
  }

  lemma SidesInRange(ps: seq<seq<int>>, p: int, units: set<int>, gp: set<int>, base: set<int>)
    requires SidesOfBase(ps, p, units, gp, base)
    ensures forall i :: i in gp ==> 0 <= i < |ps|
  {
    hide Live;
  }

  lemma BaseTrue(ps: seq<seq<int>>, p: int, units: set<int>, gp: set<int>, base: set<int>, m: set<int>)
    requires BaseHasSides(ps, p, units, gp, base) && Satisfies(m, base) && (forall l :: l in base ==> l != 0)
    ensures exists i :: i in gp && 0 <= i < |ps| && !Satisfies(m, Live(ps[i], p, units))
  {
    hide Live;
    var l :| l in base && Holds(m, l);
    var i :| i in gp && IsSide(ps, p, units, i, l);
    UnitMeaning(m, -l);
    assert Live(ps[i], p, units) == Unit(-l);
  }

  lemma SideFalse(ps: seq<seq<int>>, p: int, units: set<int>, gp: set<int>, base: set<int>, m: set<int>, i: int)
    requires SidesOfBase(ps, p, units, gp, base) && i in gp && 0 <= i < |ps| && !Satisfies(m, Live(ps[i], p, units)) && (forall l :: l in base ==> l != 0)
    ensures Satisfies(m, base)
  {
    hide Live;
    var l :| l in base && IsSide(ps, p, units, i, l);
    UnitMeaning(m, -l);
    assert Live(ps[i], p, units) == Unit(-l);
    assert Holds(m, l);
  }

  /** A base clause: nothing is true and the negations of all live literals are marked. */
  ghost predicate IsBase(c: seq<int>, q: int, units: set<int>, marked: set<int>) {
    NoneTrue(c, q, units) && forall l :: l in Live(c, q, units) ==> -l in marked
  }

  method AllMarked(c: seq<int>, q: int, units: set<int>, marked: set<int>) returns (all: bool, live: set<int>)
    requires NoComplement(units)
    ensures all <==> IsBase(c, q, units, marked)
    ensures all ==> live == Live(c, q, units)
  {
    live := {};
    var i := 0;
    while i < |c|
      invariant 0 <= i <= |c| && live == Live(c[..i], q, units) && IsBase(c[..i], q, units, marked)
    {
      assert c[..i + 1] == c[..i] + [c[i]];
      if c[i] != q && !IsFalse(units, c[i]) {
        if IsTrue(units, c[i]) || -c[i] !in marked {
          assert c[i] in c && c[i] in Live(c, q, units);
          return false, live;
        }
        live := live + {c[i]};
      }
      i := i + 1;
    }
    assert c[..|c|] == c;
    all := true;
  }

  /** Binary side clauses of an AND gate with the given base literals. */
  method SideClauses(ps: seq<seq<int>>, p: int, units: set<int>, base: set<int>) returns (gp: set<int>)
    requires AllProper(ps) && NoComplement(units) && (forall l :: l in base ==> l != 0 && HasBinary(ps, p, units, -l))
    ensures SidesOfBase(ps, p, units, gp, base) && BaseHasSides(ps, p, units, gp, base)
  {
    hide Live, NoneTrue, SidesOfBase, BaseHasSides;
    gp := {};
    var covered: set<int> := {};
    NoSides(ps, p, units, base);
    var i := 0;
    while i < |ps|
      invariant 0 <= i <= |ps|
      invariant SidesOfBase(ps, p, units, gp, base)
      invariant covered <= base && BaseHasSides(ps, p, units, gp, covered)
      invariant forall k, s :: 0 <= k < i && BinaryWith(ps[k], p, units, s) && -s in base ==> -s in covered
    {
      var other := SecondLiteral(ps[i], p, units);
      if other != 0 {
        OtherUnique(ps[i], p, units, other);
        if -other in base {
          AddSide(ps, p, units, gp, base, covered, i, -other);
          gp, covered := gp + {i}, covered + {-other};
        }
      }
      i := i + 1;
    }
    forall l | l in base
      ensures l in covered
    {
      var k :| 0 <= k < |ps| && BinaryWith(ps[k], p, units, -l);
      assert -(-l) == l;
    }
    assert covered == base;
  }

  lemma NoSides(ps: seq<seq<int>>, p: int, units: set<int>, base: set<int>)
    ensures SidesOfBase(ps, p, units, {}, base) && BaseHasSides(ps, p, units, {}, {})
  {
  }

  lemma AddSide(ps: seq<seq<int>>, p: int, units: set<int>, gp: set<int>, base: set<int>, covered: set<int>, i: int, l: int)
    requires SidesOfBase(ps, p, units, gp, base) && BaseHasSides(ps, p, units, gp, covered)
    requires l in base && IsSide(ps, p, units, i, l)
    ensures SidesOfBase(ps, p, units, gp + {i}, base) && BaseHasSides(ps, p, units, gp + {i}, covered + {l})
  {
    hide Live, IsSide;
    forall k | k in covered + {l}
      ensures exists a :: a in gp + {i} && IsSide(ps, p, units, a, k)
    {
      if k in covered {
        var a :| a in gp && IsSide(ps, p, units, a, k);
        assert a in gp + {i};
      } else {
        assert i in gp + {i};
      }
    }
  }

  /** The clause is no base clause for literals that have binary clauses with the pivot. */
  ghost predicate NoBase(ps: seq<seq<int>>, p: int, c: seq<int>, q: int, units: set<int>) {
    !(NoneTrue(c, q, units) && forall l :: l in Live(c, q, units) ==> HasBinary(ps, p, units, -l))
  }

  /** Finds an AND gate of the pivot whenever there is one, or a unit. */
  method FindAndGate(ps: seq<seq<int>>, ns: seq<seq<int>>, p: int, units: set<int>) returns (r: GateResult)
    requires AllProper(ps) && AllProper(ns) && p != 0 && p !in units && -p !in units && NoComplement(units)
    ensures GoodResult(ps, ns, p, units, r)
    ensures r.NoGate? ==> forall j :: 0 <= j < |ns| && |ns[j]| >= 3 ==> NoBase(ps, p, ns[j], -p, units)
    ensures HasPair(ps, p, units) ==> r == UnitFound(p)
  {
    hide Live, Defines, AllSatisfied, NoneTrue, HasBinary, IsBase, NoneSatisfied, HasPair;
    var unit, marked := MarkBinary(ps, p, units);
    if unit {
      return UnitFound(p);
    }
    var j := 0;
    while j < |ns|
      invariant 0 <= j <= |ns|
      invariant forall k :: 0 <= k < j && |ns[k]| >= 3 ==> NoBase(ps, p, ns[k], -p, units)
    {
      if |ns[j]| >= 3 {
        var all, base := AllMarked(ns[j], -p, units, marked);
        if all {
          BaseFacts(ns[j], -p, units, marked, base);
          var gp := SideClauses(ps, p, units, base);
          AndFound(ps, ns, p, units, gp, j, base, marked);
          return Gate(gp, {j});
        }
        NotBase(ps, p, ns[j], -p, units, marked);
      }
      j := j + 1;
    }
    return NoGate;
  }

  lemma NotBase(ps: seq<seq<int>>, p: int, c: seq<int>, q: int, units: set<int>, marked: set<int>)
    requires !IsBase(c, q, units, marked) && forall s :: s in marked <==> HasBinary(ps, p, units, s)
    ensures NoBase(ps, p, c, q, units)
  {
    hide Live, NoneTrue, HasBinary;
  }

  lemma BaseFacts(c: seq<int>, q: int, units: set<int>, marked: set<int>, base: set<int>)
    requires Proper(c) && IsBase(c, q, units, marked) && base == Live(c, q, units)
    ensures forall l :: l in base ==> l != 0 && -l in marked
  {
  }

  lemma AndFound(ps: seq<seq<int>>, ns: seq<seq<int>>, p: int, units: set<int>, gp: set<int>, j: int, base: set<int>, marked: set<int>)
    requires AllProper(ps) && AllProper(ns) && 0 <= j < |ns| && base == Live(ns[j], -p, units) && p !in units && -p !in units
    requires SidesOfBase(ps, p, units, gp, base) && BaseHasSides(ps, p, units, gp, base) && IsBase(ns[j], -p, units, marked)
    ensures GoodResult(ps, ns, p, units, Gate(gp, {j}))
  {
    hide Live, Defines, Satisfied, BaseHasSides;
    AndDefines(ps, ns, p, units, gp, j, base);
    NoneTrueUnsatisfied(ns[j], -p, units);
    forall i | i in gp && 0 <= i < |ps|
      ensures !Satisfied(ps[i], units)
    {
      var l :| l in base && IsSide(ps, p, units, i, l);
      NoneTrueUnsatisfied(ps[i], p, units);
    }
  }
}
