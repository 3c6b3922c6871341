/** Detection of if-then-else and XOR gates, whose clauses are matched one by one.  Matching skips
    every literal with a root-level value, true ones included, so a set of matched clauses defines
    the pivot exactly when none of them is root-level satisfied. */
module MatchedGates {
  import opened Cnf
  import opened Extension
  import opened Elim
  import opened Gates

  // ----- matching clauses -----

  /** Literals of a clause without a root-level value. */
  function Unassigned(c: seq<int>, units: set<int>): Clause {
    set l | l in c && !IsFalse(units, l) && !IsTrue(units, l)
  }

  /** Clauses as the solver stores them: no duplicated and no complementary literals. */
  ghost predicate Regular(c: seq<int>) {
    NoDuplicates(c) && NoComplement(Lits(c))
  }

  ghost predicate AllRegular(cs: seq<seq<int>>) {
    forall i :: 0 <= i < |cs| ==> Regular(cs[i])
  }

  /** The same in the order of the clause. */
  function Reduced(c: seq<int>, units: set<int>): seq<int> {
    if c == [] then []
    else
      var rest, l := Reduced(c[..|c| - 1], units), c[|c| - 1];
      if !IsFalse(units, l) && !IsTrue(units, l) then rest + [l] else rest
  }

  lemma ReducedMore(c: seq<int>, i: int, units: set<int>)
    requires 0 <= i < |c|
    ensures Reduced(c[..i + 1], units) == if !IsFalse(units, c[i]) && !IsTrue(units, c[i]) then Reduced(c[..i], units) + [c[i]] else Reduced(c[..i], units)
  {
    assert c[..i + 1][..i] == c[..i];
  }

  lemma {:induction false} ReducedMeans(c: seq<int>, units: set<int>)
    ensures Lits(Reduced(c, units)) == Unassigned(c, units)
    ensures NoDuplicates(c) ==> NoDuplicates(Reduced(c, units))
  {
    if c != [] {
      var n := |c| - 1;
      var d, l := c[..n], c[n];
      assert c == d + [l];
      ReducedMeans(d, units);
      assert NoDuplicates(c) ==> l !in d;
      var rest := Reduced(d, units);
      assert l in rest ==> l in Lits(rest);
      LitsAdd(rest, l);
    }
  }

  /** The literals of `c` that have no root-level value, in order. */
  method GetClause(c: seq<int>, units: set<int>) returns (lits: seq<int>)
    requires Regular(c)
    ensures lits == Reduced(c, units) && Lits(lits) == Unassigned(c, units) && NoDuplicates(lits) && Regular(lits)
  {
    hide Reduced;
    lits := [];
    var i := 0;
    ReducedEmpty(units);
    while i < |c|
      invariant 0 <= i <= |c| && lits == Reduced(c[..i], units)
    {
      ReducedMore(c, i, units);
      if !IsFalse(units, c[i]) && !IsTrue(units, c[i]) {
        lits := lits + [c[i]];
      }
      i := i + 1;
    }
    assert c[..|c|] == c;
    ReducedMeans(c, units);
    assert Lits(lits) <= Lits(c);
  }

  lemma ReducedEmpty(units: set<int>)
    ensures Reduced([], units) == []
  {
  }

  /** Does `c` consist of exactly the given literals, apart from assigned ones? */
  method IsClause(c: seq<int>, lits: seq<int>, units: set<int>) returns (same: bool)
    requires Regular(c) && NoDuplicates(lits)
    ensures same <==> Unassigned(c, units) == Lits(lits)
  {
    LitsSize(lits);
    var found := 0;
    var i := 0;
    while i < |c|
      invariant 0 <= i <= |c| && found == |Unassigned(c[..i], units)| && Unassigned(c[..i], units) <= Lits(lits)
    {
      assert c[..i + 1] == c[..i] + [c[i]];
      if !IsFalse(units, c[i]) && !IsTrue(units, c[i]) {
        if c[i] !in lits {
          assert c[i] in Unassigned(c, units) && c[i] !in Lits(lits);
          return false;
        }
        assert Unassigned(c[..i + 1], units) == Unassigned(c[..i], units) + {c[i]};
        assert c[i] !in c[..i];
        found := found + 1;
      } else {
        assert Unassigned(c[..i + 1], units) == Unassigned(c[..i], units);
      }
      i := i + 1;
    }
    assert c[..|c|] == c;
    same := found == |lits|;
    if same {
      SameSizeSubset(Unassigned(c, units), Lits(lits));
    }
  }

  method FindClause(cs: seq<seq<int>>, lits: seq<int>, units: set<int>) returns (k: int)
    requires AllRegular(cs) && NoDuplicates(lits)
    ensures k == -1 || (0 <= k < |cs| && Unassigned(cs[k], units) == Lits(lits))
    ensures k == -1 ==> forall i :: 0 <= i < |cs| ==> Unassigned(cs[i], units) != Lits(lits)
  {
    hide Regular, Unassigned;
    k := 0;
    while k < |cs|
      invariant 0 <= k <= |cs|
      invariant forall i :: 0 <= i < k ==> Unassigned(cs[i], units) != Lits(lits)
    {
      var same := IsClause(cs[k], lits, units);
      if same {
        return;
      }
      k := k + 1;
    }
    k := -1;
  }

  // ----- meaning of matched clauses -----

  /** Some assignment makes any consistent set of literals true. */
  lemma Assignment(ls: set<int>) returns (m: set<int>)
    requires NoComplement(ls)
    ensures AllHold(m, ls)
  {
    m := set l | l in ls && l > 0;
  }

  /** A clause that is not root-level satisfied is reduced to its unassigned literals. */
  lemma UnassignedLive(c: seq<int>, units: set<int>, p: int)
    requires !Satisfied(c, units)
    ensures Live(c, p, units) == Unassigned(c, units) - {p}
  {
  }

  /** A root-level satisfied clause never forces the pivot. */
  lemma SatisfiedLive(c: seq<int>, units: set<int>, p: int, m: set<int>)
    requires Satisfied(c, units) && AllHold(m, units) && p !in units && NoComplement(units)
    ensures Satisfies(m, Live(c, p, units))
  {
    var l :| l in c && IsTrue(units, l);
    assert l in Live(c, p, units) && Holds(m, l);
  }

  /** When a matched clause can force the pivot. */
  lemma MatchedLive(c: seq<int>, units: set<int>, p: int, m: set<int>)
    requires AllHold(m, units) && p !in units && NoComplement(units)
    ensures Satisfies(m, Live(c, p, units)) <==> Satisfied(c, units) || Satisfies(m, Unassigned(c, units) - {p})
  {
    hide Satisfied, Unassigned;
    if Satisfied(c, units) {
      SatisfiedLive(c, units, p, m);
    } else {
      UnassignedLive(c, units, p);
    }
  }

  // ----- if-then-else gates -----

  /** The four clauses of an if-then-else with condition `-b` as the matcher finds them. */
  ghost predicate IteMatch(ps: seq<seq<int>>, ns: seq<seq<int>>, p: int, units: set<int>, i: int, j: int, k: int, h: int, b: int, x: int, y: int) {
    && 0 <= i < |ps| && 0 <= j < |ps| && 0 <= k < |ns| && 0 <= h < |ns|
    && NoComplement({p, b, x}) && NoComplement({p, b, y}) && x != y && x != -y && p != b && p != x && p != y && b != x && b != y
    && b != -x && b != -y
    && Unassigned(ps[i], units) == {p, b, x} && Unassigned(ps[j], units) == {p, -b, y}
    && Unassigned(ns[k], units) == {-p, b, -x} && Unassigned(ns[h], units) == {-p, -b, -y}
  }

  lemma PairMeaning(m: set<int>, a: int, b: int)
    ensures Satisfies(m, {a, b}) <==> Holds(m, a) || Holds(m, b)
  {
    assert a in {a, b} && b in {a, b};
  }

  /** A ternary match forces the pivot exactly when it is unsatisfied and both others are false. */
  lemma TernaryLive(c: seq<int>, units: set<int>, p: int, a: int, b: int, m: set<int>)
    requires AllHold(m, units) && p !in units && NoComplement(units) && Unassigned(c, units) == {p, a, b} && a != p && b != p
    ensures Satisfies(m, Live(c, p, units)) <==> Satisfied(c, units) || Holds(m, a) || Holds(m, b)
  {
    MatchedLive(c, units, p, m);
    assert {p, a, b} - {p} == {a, b};
    PairMeaning(m, a, b);
  }

  /** What the four clauses force, for an assignment that respects the units. */
  lemma IteForces(ps: seq<seq<int>>, ns: seq<seq<int>>, p: int, units: set<int>, i: int, j: int, k: int, h: int, b: int, x: int, y: int, m: set<int>)
    requires AllProper(ps) && AllProper(ns) && IteMatch(ps, ns, p, units, i, j, k, h, b, x, y) && NoComplement(units) && AllHold(m, units)
    requires p !in units && -p !in units
    ensures Forces(Flag(ps, {i, j}), p, m) <==>
            (!Satisfied(ps[i], units) && !Holds(m, b) && !Holds(m, x)) || (!Satisfied(ps[j], units) && Holds(m, b) && !Holds(m, y))
    ensures Forces(Flag(ns, {k, h}), -p, m) <==>
            (!Satisfied(ns[k], units) && !Holds(m, b) && Holds(m, x)) || (!Satisfied(ns[h], units) && Holds(m, b) && Holds(m, y))
  {
    hide Live, Flag, Forces, Unassigned, Satisfied, Satisfies;
    ForcesLive(ps, {i, j}, p, units, m);
    ForcesLive(ns, {k, h}, -p, units, m);
    TernaryLive(ps[i], units, p, b, x, m);
    TernaryLive(ps[j], units, p, -b, y, m);
    TernaryLive(ns[k], units, -p, b, -x, m);
    TernaryLive(ns[h], units, -p, -b, -y, m);
    assert b != 0 && x != 0 && y != 0 by {
      assert b in {p, b, x} && x in {p, b, x} && y in {p, b, y};
    }
  }

  /** An assignment of condition and branch that respects the units. */
  lemma Probe(units: set<int>, a: int, b: int) returns (m: set<int>)
    requires NoComplement(units) && NoComplement({a, b}) && a !in units && -a !in units && b !in units && -b !in units
    ensures AllHold(m, units) && Holds(m, a) && Holds(m, b)
  {
    var ls := units + {a, b};
    m := Assignment(ls);
    assert a in ls && b in ls;
  }

  /** The matched clauses define the pivot exactly when none of them is root-level satisfied. */
  lemma IteDefines(ps: seq<seq<int>>, ns: seq<seq<int>>, p: int, units: set<int>, i: int, j: int, k: int, h: int, b: int, x: int, y: int)
    requires AllProper(ps) && AllProper(ns) && IteMatch(ps, ns, p, units, i, j, k, h, b, x, y) && NoComplement(units)
    requires p !in units && -p !in units
    ensures Defines(Flag(ps, {i, j}), Flag(ns, {k, h}), p, units) <==>
            !Satisfied(ps[i], units) && !Satisfied(ps[j], units) && !Satisfied(ns[k], units) && !Satisfied(ns[h], units)
  {
    hide Flag, Forces, Satisfied;
    forall m | AllHold(m, units)
      ensures Forces(Flag(ps, {i, j}), p, m) <==>
              (!Satisfied(ps[i], units) && !Holds(m, b) && !Holds(m, x)) || (!Satisfied(ps[j], units) && Holds(m, b) && !Holds(m, y))
      ensures Forces(Flag(ns, {k, h}), -p, m) <==>
              (!Satisfied(ns[k], units) && !Holds(m, b) && Holds(m, x)) || (!Satisfied(ns[h], units) && Holds(m, b) && Holds(m, y))
    {
      IteForces(ps, ns, p, units, i, j, k, h, b, x, y, m);
    }
    assert b in Unassigned(ps[i], units) && x in Unassigned(ps[i], units) && y in Unassigned(ps[j], units);
    assert -b in Unassigned(ps[j], units) && -x in Unassigned(ns[k], units) && -y in Unassigned(ns[h], units);
    hide Unassigned;
    var m1 := Probe(units, -b, -x);
    var m2 := Probe(units, -b, x);
    var m3 := Probe(units, b, -y);
    var m4 := Probe(units, b, y);
  }

  /** The literal that the matcher takes for the condition: the one in the middle, or the first one if
      the pivot is in the middle. */
  function Condition(c: seq<int>, p: int, units: set<int>): int {
    var lits := Reduced(c, units);
    if |lits| != 3 then 0 else if lits[1] == p then lits[0] else lits[1]
  }

  /** The other two literals of a ternary match, the pivot moved to the front. */
  method Ternary(c: seq<int>, p: int, units: set<int>) returns (ok: bool, b: int, x: int)
    requires Regular(c) && p in c && p !in units && -p !in units
    ensures ok ==> Unassigned(c, units) == {p, b, x} && NoComplement({p, b, x}) && p != b && p != x && b != x && b == Condition(c, p, units)
    ensures !ok ==> |Unassigned(c, units)| != 3
  {
    var lits := GetClause(c, units);
    LitsSize(lits);
    ok := |lits| == 3;
    if ok {
      var a;
      a, b, x := lits[0], lits[1], lits[2];
      assert Lits(lits) == {a, b, x};
      assert p in Unassigned(c, units);
      if b == p {
        a, b := b, a;
      }
      if x == p {
        a, x := x, a;
      }
      assert a == p;
    } else {
      b, x := 0, 0;
    }
  }

  /** What the search reports: a gate whose clauses define the pivot exactly when none of them is
      root-level satisfied. */
  ghost predicate Matched(ps: seq<seq<int>>, ns: seq<seq<int>>, p: int, units: set<int>, r: GateResult) {
    match r
    case NoGate => true
    case UnitFound(_) => false
    case Gate(gp, gn) =>
      Defines(Flag(ps, gp), Flag(ns, gn), p, units) <==> NoneSatisfied(ps, gp, units) && NoneSatisfied(ns, gn, units)
  }

  ghost predicate PivotLists(ps: seq<seq<int>>, ns: seq<seq<int>>, p: int, units: set<int>) {
    && AllRegular(ps) && AllRegular(ns) && NoComplement(units) && p != 0 && p !in units && -p !in units
    && (forall i :: 0 <= i < |ps| ==> p in ps[i]) && (forall i :: 0 <= i < |ns| ==> -p in ns[i])
  }

  lemma RegularProper(cs: seq<seq<int>>)
    requires AllRegular(cs)
    ensures AllProper(cs)
  {
    forall i | 0 <= i < |cs|
      ensures Proper(cs[i])
    {
      assert forall k :: 0 <= k < |cs[i]| ==> cs[i][k] in Lits(cs[i]);
    }
  }

  lemma IteMatched(ps: seq<seq<int>>, ns: seq<seq<int>>, p: int, units: set<int>, i: int, j: int, k: int, h: int, b: int, x: int, y: int)
    requires PivotLists(ps, ns, p, units) && IteMatch(ps, ns, p, units, i, j, k, h, b, x, y)
    ensures Matched(ps, ns, p, units, Gate({i, j}, {k, h}))
  {
    hide Regular, Unassigned, Satisfied, Defines, Flag;
    RegularProper(ps);
    RegularProper(ns);
    IteDefines(ps, ns, p, units, i, j, k, h, b, x, y);
    assert i in {i, j} && j in {i, j} && k in {k, h} && h in {k, h};
  }

  /** An if-then-else that the matcher can see from clauses `i` and `j`: the condition is where it looks
      for it in clause `i`. */
  ghost predicate IteFrom(ps: seq<seq<int>>, ns: seq<seq<int>>, p: int, units: set<int>, i: int, j: int) {
    0 <= i < |ps| && exists k, h, x, y :: IteMatch(ps, ns, p, units, i, j, k, h, Condition(ps[i], p, units), x, y)
  }

  ghost predicate NoIte(ps: seq<seq<int>>, ns: seq<seq<int>>, p: int, units: set<int>) {
    forall i, j :: 0 <= i < j < |ps| ==> !IteFrom(ps, ns, p, units, i, j)
  }

  /** Clauses of other shapes, or whose partners are missing, give no gate. */
  lemma NoIteAt(ps: seq<seq<int>>, ns: seq<seq<int>>, p: int, units: set<int>, i: int, j: int, b: int, x: int, b': int, y: int)
    requires 0 <= i < |ps| && 0 <= j < |ps| && Unassigned(ps[i], units) == {p, b, x} && Unassigned(ps[j], units) == {p, b', y}
    requires b == Condition(ps[i], p, units) && p != b && p != x && p != b' && p != y && b' != y
    requires b != 0 && Abs(b) != Abs(y)
    requires Abs(x) == Abs(y) || b != -b'
             || (forall k :: 0 <= k < |ns| ==> Unassigned(ns[k], units) != {-p, b, -x})
             || (forall h :: 0 <= h < |ns| ==> Unassigned(ns[h], units) != {-p, b', -y})
    ensures !IteFrom(ps, ns, p, units, i, j)
  {
    hide Unassigned, Condition, NoComplement;
    if IteFrom(ps, ns, p, units, i, j) {
      var k, h, x', y' :| IteMatch(ps, ns, p, units, i, j, k, h, Condition(ps[i], p, units), x', y');
      OtherSame(p, b, x', x);
      OtherTwo(p, b, y', b', y);
    }
  }

  lemma OtherSame(p: int, b: int, x: int, y: int)
    requires {p, b, x} == {p, b, y} && p != x && b != x
    ensures x == y
  {
    assert x in {p, b, x};
  }

  lemma OtherTwo(p: int, b: int, x: int, c: int, y: int)
    requires {p, -b, x} == {p, c, y} && p != -b && p != x && p != c && p != y && -b != x && Abs(b) != Abs(y)
    ensures c == -b && y == x
  {
    assert -b in {p, -b, x} && x in {p, -b, x} && y in {p, c, y};
  }

  lemma NotTernary(ps: seq<seq<int>>, ns: seq<seq<int>>, p: int, units: set<int>, i: int, j: int)
    requires 0 <= i < |ps| && 0 <= j < |ps| && (|Unassigned(ps[i], units)| != 3 || |Unassigned(ps[j], units)| != 3)
    ensures !IteFrom(ps, ns, p, units, i, j)
  {
    hide Unassigned, Condition;
    if IteFrom(ps, ns, p, units, i, j) {
      var b := Condition(ps[i], p, units);
      var k, h, x, y :| IteMatch(ps, ns, p, units, i, j, k, h, b, x, y);
      ThreeDifferent(p, b, x);
      ThreeDifferent(p, -b, y);
    }
  }

  lemma ThreeDifferent(p: int, b: int, x: int)
    ensures p != b && p != x && b != x ==> |{p, b, x}| == 3
  {
  }

  lemma AtPositions(ps: seq<seq<int>>, ns: seq<seq<int>>, p: int, units: set<int>, i: int)
    requires PivotLists(ps, ns, p, units) && 0 <= i < |ps|
    ensures AllRegular(ns) && Regular(ps[i]) && p in ps[i] && p !in units && -p !in units
  {
    hide Regular;
  }

  lemma Ternaries(p: int, b: int, x: int)
    requires NoComplement({p, b, x})
    ensures p != 0 && b != 0 && x != 0 && p != -b && p != -x && b != -x
  {
    assert p in {p, b, x} && b in {p, b, x} && x in {p, b, x};
  }

  lemma IteFound(ps: seq<seq<int>>, ns: seq<seq<int>>, p: int, units: set<int>, i: int, j: int, k: int, h: int, b: int, x: int, y: int)
    requires 0 <= i < |ps| && 0 <= j < |ps| && 0 <= k < |ns| && 0 <= h < |ns|
    requires NoComplement({p, b, x}) && NoComplement({p, -b, y}) && Abs(x) != Abs(y) && p != b && p != x && p != -b && p != y && b != x && -b != y && Abs(b) != Abs(y)
    requires Unassigned(ps[i], units) == {p, b, x} && Unassigned(ps[j], units) == {p, -b, y}
    requires Unassigned(ns[k], units) == {-p, b, -x} && Unassigned(ns[h], units) == {-p, -b, -y}
    requires b == Condition(ps[i], p, units)
    ensures IteMatch(ps, ns, p, units, i, j, k, h, b, x, y) && IteFrom(ps, ns, p, units, i, j)
  {
    hide Unassigned, Condition;
    Ternaries(p, b, x);
    Ternaries(p, -b, y);
    assert NoComplement({p, b, y});
  }

  /** Tries two clauses; `k` and `h` are their partners. */
  method TryPair(ps: seq<seq<int>>, ns: seq<seq<int>>, p: int, units: set<int>, i: int, j: int, b: int, x: int) returns (k: int, h: int)
    requires PivotLists(ps, ns, p, units) && 0 <= i < j < |ps|
    requires Unassigned(ps[i], units) == {p, b, x} && NoComplement({p, b, x}) && p != b && p != x && b != x && b == Condition(ps[i], p, units)
    ensures k != -1 && h != -1 <==> IteFrom(ps, ns, p, units, i, j)
    ensures k != -1 && h != -1 ==> exists y :: IteMatch(ps, ns, p, units, i, j, k, h, b, x, y)
  {
    hide Unassigned, Regular, Condition, NoComplement, IteMatch, PivotLists;
    AtPositions(ps, ns, p, units, i);
    AtPositions(ps, ns, p, units, j);
    k, h := -1, -1;
    var ok, b', y := Ternary(ps[j], p, units);
    if !ok {
      NotTernary(ps, ns, p, units, i, j);
      return;
    }
    Ternaries(p, b, x);
    Ternaries(p, b', y);
    if Abs(b) == Abs(y) {
      assert {p, b', y} == {p, y, b'};
      b', y := y, b';
    }
    if Abs(x) != Abs(y) && b == -b' {
      k := FindClause(ns, [-p, b, -x], units);
      assert Lits([-p, b, -x]) == {-p, b, -x};
      if k != -1 {
        h := FindClause(ns, [-p, b', -y], units);
        assert Lits([-p, b', -y]) == {-p, b', -y};
        if h != -1 {
          IteFound(ps, ns, p, units, i, j, k, h, b, x, y);
          return;
        }
      }
    }
    NoIteAt(ps, ns, p, units, i, j, b, x, b', y);
  }

  /** A gate is found exactly if some pair of clauses shows one with the condition in its place. */
  method FindIfThenElse(ps: seq<seq<int>>, ns: seq<seq<int>>, p: int, units: set<int>) returns (r: GateResult)
    requires PivotLists(ps, ns, p, units)
    ensures Matched(ps, ns, p, units, r)
    ensures r.NoGate? <==> NoIte(ps, ns, p, units)
  {
    hide Unassigned, Regular, Defines, IteFrom, IteMatch, Condition, NoComplement;
    var i := 0;
    while i < |ps|
      invariant 0 <= i <= |ps|
      invariant forall a, j :: 0 <= a < i && a < j < |ps| ==> !IteFrom(ps, ns, p, units, a, j)
    {
      var ok, b, x := Ternary(ps[i], p, units);
      var j := i + 1;
      while j < |ps|
        invariant i < j <= |ps|
        invariant forall q :: i < q < j ==> !IteFrom(ps, ns, p, units, i, q)
      {
        if ok {
          var k, h := TryPair(ps, ns, p, units, i, j, b, x);
          if k != -1 && h != -1 {
            ghost var y :| IteMatch(ps, ns, p, units, i, j, k, h, b, x, y);
            IteMatched(ps, ns, p, units, i, j, k, h, b, x, y);
            return Gate({i, j}, {k, h});
          }
        } else {
          NotTernary(ps, ns, p, units, i, j);
        }
        j := j + 1;
      }
      i := i + 1;
    }
    return NoGate;
  }

  // ----- a gate that is missed -----

  /** The clauses of 1 = if 2 then -4 else -3, the condition last in the first clause. */
  const MissedPs: seq<seq<int>> := [[1, 3, 2], [1, -2, 4]]
  const MissedNs: seq<seq<int>> := [[-1, 2, -3], [-1, -2, -4]]

  /** The search depends on the order of literals: all four clauses are there, but the condition is not
      where the matcher looks for it. */
  lemma ExampleMissed()
    ensures IteMatch(MissedPs, MissedNs, 1, {}, 0, 1, 0, 1, 2, 3, 4)
    ensures NoIte(MissedPs, MissedNs, 1, {})
  {
    MissedClauses();
    hide Unassigned, Condition;
    forall i, j | 0 <= i < j < |MissedPs|
      ensures !IteFrom(MissedPs, MissedNs, 1, {}, i, j)
    {
      assert i == 0 && j == 1;
      assert {1, 3, 2} == {1, 2, 3};
      NoIteAt(MissedPs, MissedNs, 1, {}, 0, 1, 3, 2, -2, 4);
    }
  }

  lemma MissedClauses()
    ensures Unassigned(MissedPs[0], {}) == {1, 3, 2} && Unassigned(MissedPs[1], {}) == {1, -2, 4}
    ensures Unassigned(MissedNs[0], {}) == {-1, 2, -3} && Unassigned(MissedNs[1], {}) == {-1, -2, -4}
    ensures Condition(MissedPs[0], 1, {}) == 3
  {
    hide Unassigned, Reduced;
    NothingAssigned(MissedPs[0]);
    NothingAssigned(MissedPs[1]);
    NothingAssigned(MissedNs[0]);
    NothingAssigned(MissedNs[1]);
  }

  /** Without units every literal counts. */
  lemma {:induction false} NothingAssigned(c: seq<int>)
    ensures Unassigned(c, {}) == Lits(c) && Reduced(c, {}) == c
  {
    if c != [] {
      NothingAssigned(c[..|c| - 1]);
      assert c == c[..|c| - 1] + [c[|c| - 1]];
    }
  }
}
