/** XOR gates: the search enumerates sign patterns of even parity and looks for one clause each. */
module XorGates {
  import opened Cnf
  import opened Extension
  import opened Elim
  import opened Gates
  import opened MatchedGates

  function Power(n: nat): nat {
    if n == 0 then 1 else 2 * Power(n - 1)
  }

  predicate Bit(s: nat, j: nat) {
    if j == 0 then s % 2 == 1 else Bit(s / 2, j - 1)
  }

  /** Parity of the number of bits set. */
  predicate Odd(s: nat) {
    if s == 0 then false else (s % 2 == 1) != Odd(s / 2)
  }

  /** The literals with those selected by the pattern negated. */
  function Flipped(lits: seq<int>, s: nat): (r: seq<int>)
    ensures |r| == |lits| && forall j :: 0 <= j < |lits| ==> r[j] == if Bit(s, j) then -lits[j] else lits[j]
  {
    seq(|lits|, j requires 0 <= j < |lits| => if Bit(s, j) then -lits[j] else lits[j])
  }

  /** The pattern all of whose literals are false. */
  function PatternOf(lits: seq<int>, m: set<int>): nat {
    if lits == [] then 0 else (if Holds(m, lits[0]) then 1 else 0) + 2 * PatternOf(lits[1..], m)
  }

  lemma {:induction false} PatternBits(lits: seq<int>, m: set<int>)
    ensures PatternOf(lits, m) < Power(|lits|)
    ensures forall j :: 0 <= j < |lits| ==> (Bit(PatternOf(lits, m), j) <==> Holds(m, lits[j]))
  {
    if lits != [] {
      PatternBits(lits[1..], m);
      var s, t := PatternOf(lits, m), PatternOf(lits[1..], m);
      assert s / 2 == t;
      forall j | 0 <= j < |lits|
        ensures Bit(s, j) <==> Holds(m, lits[j])
      {
        if j > 0 {
          assert lits[j] == lits[1..][j - 1];
        }
      }
    }
  }

  lemma {:induction false} BitsDetermine(n: nat, s: nat, t: nat)
    requires s < Power(n) && t < Power(n) && forall j :: 0 <= j < n ==> (Bit(s, j) <==> Bit(t, j))
    ensures s == t
  {
    if n > 0 {
      forall j | 0 <= j < n - 1
        ensures Bit(s / 2, j) <==> Bit(t / 2, j)
      {
        assert Bit(s, j + 1) <==> Bit(t, j + 1);
      }
      BitsDetermine(n - 1, s / 2, t / 2);
      assert Bit(s, 0) <==> Bit(t, 0);
    }
  }

  /** Changing one literal changes the parity of the falsified pattern. */
  lemma {:induction false} ParityFlips(lits: seq<int>, q: nat, m: set<int>, w: set<int>)
    requires q < |lits| && Holds(m, lits[q]) && !Holds(w, lits[q])
    requires forall j :: 0 <= j < |lits| && j != q ==> (Holds(m, lits[j]) <==> Holds(w, lits[j]))
    ensures Odd(PatternOf(lits, m)) != Odd(PatternOf(lits, w))
  {
    var rest := lits[1..];
    assert forall j :: 0 <= j < |rest| ==> rest[j] == lits[j + 1];
    var s, t := PatternOf(lits, m), PatternOf(lits, w);
    assert s / 2 == PatternOf(rest, m) && t / 2 == PatternOf(rest, w);
    if q == 0 {
      SamePattern(rest, m, w);
    } else {
      ParityFlips(rest, q - 1, m, w);
      assert Holds(m, lits[0]) <==> Holds(w, lits[0]);
    }
    OddStep(s);
    OddStep(t);
  }

  lemma OddStep(s: nat)
    ensures Odd(s) == ((s % 2 == 1) != Odd(s / 2))
  {
  }

  lemma {:induction false} SamePattern(lits: seq<int>, m: set<int>, w: set<int>)
    requires forall j :: 0 <= j < |lits| ==> (Holds(m, lits[j]) <==> Holds(w, lits[j]))
    ensures PatternOf(lits, m) == PatternOf(lits, w)
  {
    if lits != [] {
      assert forall j :: 0 <= j < |lits[1..]| ==> lits[1..][j] == lits[j + 1];
      SamePattern(lits[1..], m, w);
    }
  }

  /** An assignment falsifies all literals of exactly one pattern. */
  lemma FalsifiedPattern(lits: seq<int>, s: nat, m: set<int>)
    requires Proper(lits) && s < Power(|lits|)
    ensures !True(m, Flipped(lits, s)) <==> s == PatternOf(lits, m)
  {
    var f, t := Flipped(lits, s), PatternOf(lits, m);
    PatternBits(lits, m);
    assert forall j :: 0 <= j < |lits| ==> (Holds(m, f[j]) <==> (Bit(s, j) != Holds(m, lits[j])));
    if !True(m, f) {
      forall j | 0 <= j < |lits|
        ensures Bit(s, j) <==> Bit(t, j)
      {
        assert f[j] in f;
      }
      BitsDetermine(|lits|, s, t);
    }
  }

  /** Patterns of even parity in which the pivot has phase `z`. */
  predicate OfPhase(lits: seq<int>, q: nat, z: int, s: nat)
    requires q < |lits|
  {
    !Odd(s) && Flipped(lits, s)[q] == z
  }

  ghost predicate Located(cs: seq<seq<int>>, units: set<int>, lits: seq<int>, sel: map<nat, nat>) {
    forall s :: s in sel ==> sel[s] < |cs| && Unassigned(cs[sel[s]], units) == Lits(Flipped(lits, s))
  }

  /** The clauses of one phase `z` of the pivot found for the patterns of even parity. */
  ghost predicate SideMatch(cs: seq<seq<int>>, z: int, units: set<int>, lits: seq<int>, q: nat, sel: map<nat, nat>) {
    && q < |lits| && Regular(lits) && z != 0 && (lits[q] == z || lits[q] == -z)
    && (forall s: nat :: s in sel <==> s < Power(|lits|) && OfPhase(lits, q, z, s))
    && Located(cs, units, lits, sel)
  }

  lemma RegularDistinct(lits: seq<int>, q: nat, j: nat)
    requires Regular(lits) && q < |lits| && j < |lits| && j != q
    ensures lits[j] != lits[q] && lits[j] != -lits[q] && lits[j] != 0 && lits[q] != 0
  {
    assert lits[j] in Lits(lits) && lits[q] in Lits(lits);
  }

  /** A found clause is false, the pivot aside, exactly for the pattern of the assignment. */
  lemma PatternRest(z: int, lits: seq<int>, q: nat, s: nat, m: set<int>)
    requires q < |lits| && Regular(lits) && z != 0 && (lits[q] == z || lits[q] == -z) && s < Power(|lits|) && Flipped(lits, s)[q] == z
    ensures !Satisfies(m, Lits(Flipped(lits, s)) - {z}) <==> s == PatternOf(lits, SetTrue(m, -z))
  {
    hide Bit, PatternOf, Power, SetTrue;
    var f, m0 := Flipped(lits, s), SetTrue(m, -z);
    forall j | 0 <= j < |lits|
      ensures j != q ==> f[j] != z && (Holds(m0, f[j]) <==> Holds(m, f[j]))
      ensures f[j] != 0
    {
      if j != q {
        RegularDistinct(lits, q, j);
        SetTrueHolds(m, -z, f[j]);
      }
    }
    SetTrueHolds(m, -z, z);
    RestOfFlipped(f, q, z, m, m0);
    assert Proper(lits) by {
      assert forall j :: 0 <= j < |lits| ==> lits[j] in Lits(lits);
    }
    FalsifiedPattern(lits, s, m0);
  }

  lemma RestOfFlipped(f: seq<int>, q: nat, z: int, m: set<int>, m0: set<int>)
    requires q < |f| && f[q] == z && !Holds(m0, z)
    requires forall j :: 0 <= j < |f| && j != q ==> f[j] != z && (Holds(m0, f[j]) <==> Holds(m, f[j]))
    ensures Satisfies(m, Lits(f) - {z}) <==> True(m0, f)
  {
    if Satisfies(m, Lits(f) - {z}) {
      var l :| l in Lits(f) - {z} && Holds(m, l);
      var j :| 0 <= j < |f| && f[j] == l;
      assert Holds(m0, f[j]);
    }
    if True(m0, f) {
      var l :| l in f && Holds(m0, l);
      var j :| 0 <= j < |f| && f[j] == l;
      assert j != q && f[j] in Lits(f) - {z};
    }
  }

  /** A phase of the pivot is forced exactly when the pattern of the assignment was found for this
      phase and its clause is not root-level satisfied. */
  lemma SideForces(cs: seq<seq<int>>, z: int, units: set<int>, lits: seq<int>, q: nat, sel: map<nat, nat>, m: set<int>)
    requires AllProper(cs) && SideMatch(cs, z, units, lits, q, sel) && NoComplement(units) && z !in units && AllHold(m, units)
    ensures var s := PatternOf(lits, SetTrue(m, -z));
      Forces(Flag(cs, sel.Values), z, m) <==> s in sel && !Satisfied(cs[sel[s]], units)
  {
    hide Flag, Forces, Satisfies, Live, Unassigned, Satisfied, PatternOf, Bit, Odd, Power, Regular, SetTrue;
    var s0 := PatternOf(lits, SetTrue(m, -z));
    forall s | s in sel
      ensures sel[s] in sel.Values
      ensures !Satisfies(m, Live(cs[sel[s]], z, units)) <==> s == s0 && !Satisfied(cs[sel[s]], units)
    {
      MatchedLive(cs[sel[s]], units, z, m);
      PatternRest(z, lits, q, s, m);
    }
    var g: set<int> := sel.Values;
    ForcesLive(cs, g, z, units, m);
    if i :| i in g && !Satisfies(m, Live(cs[i], z, units)) {
      var s :| s in sel && sel[s] == i;
    }
  }

  /** An assignment that respects the units and falsifies a found clause. */
  lemma PatternProbe(cs: seq<seq<int>>, z: int, units: set<int>, lits: seq<int>, q: nat, sel: map<nat, nat>, s: nat) returns (m: set<int>)
    requires SideMatch(cs, z, units, lits, q, sel) && NoComplement(units) && s in sel
    ensures AllHold(m, units) && PatternOf(lits, SetTrue(m, -z)) == s
  {
    var f := Flipped(lits, s);
    var ls := units + Negated(Lits(f));
    forall l | l in ls
      ensures l != 0 && -l !in ls
    {
      NegatedFlipped(lits, s, units, cs[sel[s]], l);
    }
    m := Assignment(ls);
    hide Bit, PatternOf, Power, SetTrue, Unassigned, Regular;
    assert forall l :: l in Lits(f) ==> -l in ls && !Holds(m, l);
    PatternRest(z, lits, q, s, m);
  }

  lemma FlippedClean(lits: seq<int>, s: nat, units: set<int>, c: seq<int>, k: int)
    requires Regular(lits) && Unassigned(c, units) == Lits(Flipped(lits, s)) && k in Lits(Flipped(lits, s))
    ensures k != 0 && k !in units && -k !in units && -k !in Lits(Flipped(lits, s))
  {
    hide Bit;
    var f := Flipped(lits, s);
    assert k in Unassigned(c, units);
    var j :| 0 <= j < |f| && f[j] == k;
    assert lits[j] in Lits(lits);
    hide Unassigned;
    forall i | 0 <= i < |f|
      ensures f[i] != -k
    {
      if i != j {
        RegularDistinct(lits, i, j);
      }
    }
  }

  /** Negating the literals of an unassigned pattern stays consistent with the units. */
  lemma NegatedFlipped(lits: seq<int>, s: nat, units: set<int>, c: seq<int>, l: int)
    requires Regular(lits) && NoComplement(units) && Unassigned(c, units) == Lits(Flipped(lits, s))
    requires l in units + Negated(Lits(Flipped(lits, s)))
    ensures l != 0 && -l !in units + Negated(Lits(Flipped(lits, s)))
  {
    hide Flipped, Lits, Unassigned, Regular;
    var f := Lits(Flipped(lits, s));
    assert forall k :: k in Negated(f) <==> -k in f by {
      NegatedMembers(f);
    }
    if -l in f {
      FlippedClean(lits, s, units, c, -l);
    }
    if l in f {
      FlippedClean(lits, s, units, c, l);
    }
  }

  lemma NegatedMembers(f: set<int>)
    ensures forall k :: k in Negated(f) <==> -k in f
  {
    forall k
      ensures k in Negated(f) <==> -k in f
    {
      assert -(-k) == k;
    }
  }

  /** One clause for every pattern of even parity: the clauses define the pivot exactly when none of
      them is root-level satisfied. */
  lemma XorDefines(ps: seq<seq<int>>, ns: seq<seq<int>>, p: int, units: set<int>, lits: seq<int>, q: nat, sp: map<nat, nat>, sn: map<nat, nat>)
    requires AllProper(ps) && AllProper(ns) && NoComplement(units) && p !in units && -p !in units
    requires SideMatch(ps, p, units, lits, q, sp) && SideMatch(ns, -p, units, lits, q, sn)
    ensures Defines(Flag(ps, sp.Values), Flag(ns, sn.Values), p, units) <==>
            NoneSatisfied(ps, sp.Values, units) && NoneSatisfied(ns, sn.Values, units)
  {
    hide SideMatch, Flag, Forces, Satisfied, PatternOf, SetTrue, Unassigned;
    var gp: set<int>, gn: set<int> := sp.Values, sn.Values;
    assert -(-p) == p;
    forall m | AllHold(m, units)
      ensures OneSide(ps, ns, p, units, lits, sp, sn, m)
    {
      XorForces(ps, ns, p, units, lits, q, sp, sn, m);
    }
    if NoneSatisfied(ps, gp, units) && NoneSatisfied(ns, gn, units) {
      forall m | AllHold(m, units)
        ensures Forces(Flag(ps, gp), p, m) <==> !Forces(Flag(ns, gn), -p, m)
      {
        assert OneSide(ps, ns, p, units, lits, sp, sn, m);
      }
    }
    if i :| i in gp && 0 <= i < |ps| && Satisfied(ps[i], units) {
      var s :| s in sp && sp[s] == i;
      var m := PatternProbe(ps, p, units, lits, q, sp, s);
      assert OneSide(ps, ns, p, units, lits, sp, sn, m);
    }
    if i :| i in gn && 0 <= i < |ns| && Satisfied(ns[i], units) {
      var s :| s in sn && sn[s] == i;
      var m := PatternProbe(ns, -p, units, lits, q, sn, s);
      assert OneSide(ps, ns, p, units, lits, sp, sn, m);
    }
  }

  /** Every assignment falsifies the found clause of exactly one phase. */
  ghost predicate OneSide(ps: seq<seq<int>>, ns: seq<seq<int>>, p: int, units: set<int>, lits: seq<int>, sp: map<nat, nat>, sn: map<nat, nat>, m: set<int>) {
    var s, t := PatternOf(lits, SetTrue(m, -p)), PatternOf(lits, SetTrue(m, p));
    && (s in sp) != (t in sn)
    && (s in sp ==> sp[s] < |ps|) && (t in sn ==> sn[t] < |ns|)
    && (Forces(Flag(ps, sp.Values), p, m) <==> s in sp && !Satisfied(ps[sp[s]], units))
    && (Forces(Flag(ns, sn.Values), -p, m) <==> t in sn && !Satisfied(ns[sn[t]], units))
  }

  lemma XorForces(ps: seq<seq<int>>, ns: seq<seq<int>>, p: int, units: set<int>, lits: seq<int>, q: nat, sp: map<nat, nat>, sn: map<nat, nat>, m: set<int>)
    requires AllProper(ps) && AllProper(ns) && NoComplement(units) && p !in units && -p !in units && AllHold(m, units)
    requires SideMatch(ps, p, units, lits, q, sp) && SideMatch(ns, -p, units, lits, q, sn)
    ensures OneSide(ps, ns, p, units, lits, sp, sn, m)
  {
    hide Flag, Forces, Satisfied, Unassigned, Bit, Odd, PatternOf, Power, SetTrue;
    assert -(-p) == p;
    SideForces(ps, p, units, lits, q, sp, m);
    SideForces(ns, -p, units, lits, q, sn, m);
    var m0, m1 := SetTrue(m, -p), SetTrue(m, p);
    forall j | 0 <= j < |lits|
      ensures j != q ==> (Holds(m0, lits[j]) <==> Holds(m1, lits[j]))
      ensures j == q ==> Holds(m0, lits[j]) != Holds(m1, lits[j])
    {
      if j != q {
        RegularDistinct(lits, q, j);
      } else {
        assert lits[j] != 0;
      }
      SetTrueHolds(m, -p, lits[j]);
      SetTrueHolds(m, p, lits[j]);
    }
    if Holds(m0, lits[q]) {
      ParityFlips(lits, q, m0, m1);
    } else {
      ParityFlips(lits, q, m1, m0);
    }
    PhaseOfPattern(lits, q, p, m);
    PhaseOfPattern(lits, q, -p, m);
  }

  /** The pattern falsified with `z` false contains `z`. */
  lemma PhaseOfPattern(lits: seq<int>, q: nat, z: int, m: set<int>)
    requires q < |lits| && z != 0 && (lits[q] == z || lits[q] == -z)
    ensures PatternOf(lits, SetTrue(m, -z)) < Power(|lits|) && Flipped(lits, PatternOf(lits, SetTrue(m, -z)))[q] == z
  {
    hide SetTrue;
    PatternBits(lits, SetTrue(m, -z));
    SetTrueHolds(m, -z, z);
    SetTrueHolds(m, -z, -z);
  }

  // ----- the search -----

  /** The patterns of even parity up to `signs` have been found; pattern 0 is the base clause. */
  ghost predicate FoundUpTo(cs: seq<seq<int>>, z: int, units: set<int>, lits: seq<int>, q: nat, sel: map<nat, nat>, signs: nat) {
    && q < |lits|
    && (forall s: nat :: s in sel <==> s <= signs && OfPhase(lits, q, z, s))
    && Located(cs, units, lits, sel)
  }

  /** The next pattern of even parity. */
  method NextEven(prev: nat) returns (signs: nat)
    requires !Odd(prev)
    ensures signs / 2 == prev / 2 + 1 && NextPattern(prev, signs)
  {
    signs := prev + 1;
    var k := prev / 2 + 1;
    OddStep(prev);
    OddStep(prev + 1);
    OddStep(2 * k);
    OddStep(2 * k + 1);
    assert 2 * k / 2 == k && (2 * k + 1) / 2 == k;
    while Odd(signs)
      invariant prev < signs <= 2 * k + 1
      invariant forall t: nat :: prev < t < signs ==> Odd(t)
      decreases 2 * k + 2 - signs
    {
      signs := signs + 1;
    }
    assert signs / 2 != prev / 2;
  }

  /** Negates the literals whose sign changes from one pattern to the next. */
  method FlipSigns(cur: seq<int>, prev: nat, signs: nat, ghost lits: seq<int>) returns (r: seq<int>)
    requires cur == Flipped(lits, prev)
    ensures r == Flipped(lits, signs)
  {
    r := cur;
    var j := 0;
    while j < |cur|
      invariant 0 <= j <= |cur| == |r|
      invariant forall i :: 0 <= i < j ==> r[i] == Flipped(lits, signs)[i]
      invariant forall i :: j <= i < |cur| ==> r[i] == cur[i]
    {
      if Bit(prev, j) != Bit(signs, j) {
        r := r[j := -r[j]];
      }
      j := j + 1;
    }
  }

  lemma FlippedNoDuplicates(lits: seq<int>, s: nat)
    requires Regular(lits)
    ensures NoDuplicates(Flipped(lits, s))
  {
    hide Bit;
    var f := Flipped(lits, s);
    forall i, j | 0 <= i < j < |f|
      ensures f[i] != f[j]
    {
      RegularDistinct(lits, i, j);
    }
  }

  ghost predicate NextPattern(prev: nat, signs: nat) {
    prev < signs && !Odd(signs) && forall t: nat :: prev < t < signs ==> Odd(t)
  }

  lemma AddPattern(cs: seq<seq<int>>, z: int, units: set<int>, lits: seq<int>, q: nat, sel: map<nat, nat>, prev: nat, signs: nat, k: nat)
    requires FoundUpTo(cs, z, units, lits, q, sel, prev) && NextPattern(prev, signs)
    requires Flipped(lits, signs)[q] == z && k < |cs| && Unassigned(cs[k], units) == Lits(Flipped(lits, signs))
    ensures FoundUpTo(cs, z, units, lits, q, sel[signs := k], signs)
  {
    hide Unassigned, Odd, Bit, Lits;
  }

  lemma SkipPattern(cs: seq<seq<int>>, z: int, units: set<int>, lits: seq<int>, q: nat, sel: map<nat, nat>, prev: nat, signs: nat)
    requires FoundUpTo(cs, z, units, lits, q, sel, prev) && NextPattern(prev, signs)
    requires Flipped(lits, signs)[q] != z
    ensures FoundUpTo(cs, z, units, lits, q, sel, signs)
  {
    hide Unassigned, Odd, Bit, Located;
  }

  /** Some pattern of even parity has no clause. */
  ghost predicate Missing(ps: seq<seq<int>>, ns: seq<seq<int>>, p: int, units: set<int>, lits: seq<int>, q: nat) {
    exists s: nat :: MissingAt(ps, ns, p, units, lits, q, s)
  }

  ghost predicate MissingAt(ps: seq<seq<int>>, ns: seq<seq<int>>, p: int, units: set<int>, lits: seq<int>, q: nat, s: nat) {
    && q < |lits| && s < Power(|lits|) && !Odd(s)
    && var cs := if Flipped(lits, s)[q] == p then ps else ns;
       forall i :: 0 <= i < |cs| ==> Unassigned(cs[i], units) != Lits(Flipped(lits, s))
  }

  /** Searches the remaining clauses of an XOR whose base clause has the unassigned literals `lits`. */
  method MatchXor(ps: seq<seq<int>>, ns: seq<seq<int>>, p: int, units: set<int>, lits: seq<int>, q: nat, d: nat)
    returns (found: bool, sp: map<nat, nat>, sn: map<nat, nat>)
    requires AllRegular(ps) && AllRegular(ns) && p != 0 && Regular(lits) && q < |lits| && lits[q] == p
    requires |lits| >= 3 && d < |ps| && Unassigned(ps[d], units) == Lits(lits)
    ensures found ==> SideMatch(ps, p, units, lits, q, sp) && SideMatch(ns, -p, units, lits, q, sn)
    ensures !found ==> Missing(ps, ns, p, units, lits, q)
  {
    hide Unassigned, Bit, Odd, Regular, FoundUpTo, Lits;
    PowerPositive(|lits| - 1);
    var needed: nat := Power(|lits| - 1) - 1;
    var signs := 0;
    var cur := lits;
    sp, sn := map[0 := d], map[];
    StartXor(ps, ns, p, units, lits, q, d);
    while needed > 0
      invariant cur == Flipped(lits, signs) && !Odd(signs) && signs / 2 + needed == Power(|lits| - 1) - 1
      invariant FoundUpTo(ps, p, units, lits, q, sp, signs) && FoundUpTo(ns, -p, units, lits, q, sn, signs)
    {
      var prev := signs;
      signs := NextEven(prev);
      cur := FlipSigns(cur, prev, signs, lits);
      FlippedNoDuplicates(lits, signs);
      var cs := if cur[q] == p then ps else ns;
      var k := FindClause(cs, cur, units);
      if k == -1 {
        SignsBounded(signs, |lits|);
        assert MissingAt(ps, ns, p, units, lits, q, signs);
        return false, sp, sn;
      }
      if cur[q] == p {
        AddPattern(ps, p, units, lits, q, sp, prev, signs, k);
        SkipPattern(ns, -p, units, lits, q, sn, prev, signs);
        sp := sp[signs := k];
      } else {
        AddPattern(ns, -p, units, lits, q, sn, prev, signs, k);
        SkipPattern(ps, p, units, lits, q, sp, prev, signs);
        sn := sn[signs := k];
      }
      needed := needed - 1;
    }
    found := true;
    AllPatterns(ps, p, units, lits, q, sp, signs);
    AllPatterns(ns, -p, units, lits, q, sn, signs);
  }

  lemma SignsBounded(signs: nat, n: nat)
    requires n > 0 && signs / 2 < Power(n - 1)
    ensures signs < Power(n)
  {
  }

  lemma StartXor(ps: seq<seq<int>>, ns: seq<seq<int>>, p: int, units: set<int>, lits: seq<int>, q: nat, d: nat)
    requires p != 0 && q < |lits| && lits[q] == p && d < |ps| && Unassigned(ps[d], units) == Lits(lits)
    ensures Flipped(lits, 0) == lits && !Odd(0) && Power(|lits| - 1) >= 1
    ensures FoundUpTo(ps, p, units, lits, q, map[0 := d], 0) && FoundUpTo(ns, -p, units, lits, q, map[], 0)
  {
    forall j: nat
      ensures !Bit(0, j)
    {
      ZeroBits(j);
    }
    assert Flipped(lits, 0) == lits;
    PowerPositive(|lits| - 1);
  }

  lemma ZeroBits(j: nat)
    ensures !Bit(0, j)
  {
  }

  lemma PowerPositive(n: nat)
    ensures Power(n) >= 1
  {
  }

  /** Once half of the patterns are found, all of even parity are. */
  lemma AllPatterns(cs: seq<seq<int>>, z: int, units: set<int>, lits: seq<int>, q: nat, sel: map<nat, nat>, signs: nat)
    requires FoundUpTo(cs, z, units, lits, q, sel, signs) && Regular(lits) && z != 0 && (lits[q] == z || lits[q] == -z)
    requires !Odd(signs) && signs / 2 == Power(|lits| - 1) - 1
    ensures SideMatch(cs, z, units, lits, q, sel)
  {
    hide Unassigned, Bit, Regular, Odd, Power, Located;
    PatternRange(signs, |lits|);
  }

  lemma PatternRange(signs: nat, n: nat)
    requires n > 0 && !Odd(signs) && signs / 2 == Power(n - 1) - 1
    ensures forall s: nat :: !Odd(s) ==> (s <= signs <==> s < Power(n))
  {
    OddStep(signs);
    OddStep(signs + 1);
    hide Odd;
    assert Power(n) == 2 * Power(n - 1);
    hide Power;
  }

  /** The clause is not the base of an XOR gate within the arity limit. */
  ghost predicate NoXor(ps: seq<seq<int>>, ns: seq<seq<int>>, p: int, units: set<int>, c: seq<int>, limit: nat) {
    3 <= |Unassigned(c, units)| <= limit + 1 ==>
      exists lits, q :: Lits(lits) == Unassigned(c, units) && Missing(ps, ns, p, units, lits, q)
  }

  lemma NoXorFound(ps: seq<seq<int>>, ns: seq<seq<int>>, p: int, units: set<int>, c: seq<int>, limit: nat, lits: seq<int>, q: nat)
    requires Lits(lits) == Unassigned(c, units) && Missing(ps, ns, p, units, lits, q)
    ensures NoXor(ps, ns, p, units, c, limit)
  {
    hide Missing;
  }

  /** Finds an XOR gate within the arity limit whenever there is one. */
  method FindXor(ps: seq<seq<int>>, ns: seq<seq<int>>, p: int, units: set<int>, limit: nat) returns (r: GateResult)
    requires PivotLists(ps, ns, p, units)
    ensures Matched(ps, ns, p, units, r)
    ensures r.NoGate? ==> forall i :: 0 <= i < |ps| ==> NoXor(ps, ns, p, units, ps[i], limit)
  {
    hide SideMatch, Unassigned, Regular, Defines, Missing;
    RegularProper(ps);
    RegularProper(ns);
    var d := 0;
    while d < |ps|
      invariant 0 <= d <= |ps| && forall i :: 0 <= i < d ==> NoXor(ps, ns, p, units, ps[i], limit)
    {
      var lits := GetClause(ps[d], units);
      LitsSize(lits);
      if 3 <= |lits| <= limit + 1 {
        var q := IndexOf(lits, p, ps[d], units);
        var found, sp, sn := MatchXor(ps, ns, p, units, lits, q, d);
        if found {
          XorDefines(ps, ns, p, units, lits, q, sp, sn);
          var gp := set s | s in sp :: sp[s];
          var gn := set s | s in sn :: sn[s];
          assert gp == sp.Values && gn == sn.Values;
          return Gate(gp, gn);
        }
        NoXorFound(ps, ns, p, units, ps[d], limit, lits, q);
      }
      d := d + 1;
    }
    return NoGate;
  }

  /** Position of the pivot among the unassigned literals. */
  method IndexOf(lits: seq<int>, p: int, c: seq<int>, units: set<int>) returns (q: nat)
    requires Lits(lits) == Unassigned(c, units) && p in c && p !in units && -p !in units
    ensures q < |lits| && lits[q] == p
  {
    assert p in Lits(lits);
    q := 0;
    while lits[q] != p
      invariant 0 <= q < |lits| && p !in lits[..q]
      decreases |lits| - q
    {
      assert lits[..q + 1] == lits[..q] + [lits[q]];
      assert lits == lits[..q] + lits[q..];
      if q + 1 == |lits| {
        assert false;
      }
      q := q + 1;
    }
  }
}
