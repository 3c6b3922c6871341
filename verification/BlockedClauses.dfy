/** Blocked clause elimination.  Occurrence lists and clause literals are reordered in place by a
    move-to-front scheme; blocked clauses are removed and recovered by the extension stack. */
module BlockedClauses {
  import opened Cnf
  import opened Extension

  // ----- move to front -----

  function MoveToFront<T>(s: seq<T>, k: int): (r: seq<T>)
    requires 0 <= k < |s|
    ensures |r| == |s|
  {
    [s[k]] + s[..k] + s[k + 1..]
  }

  lemma MoveToFrontPermutes<T>(s: seq<T>, k: int)
    requires 0 <= k < |s|
    ensures multiset(MoveToFront(s, k)) == multiset(s)
    ensures forall x :: x in MoveToFront(s, k) <==> x in s
  {
    assert s == s[..k] + [s[k]] + s[k + 1..];
    assert forall x :: x in MoveToFront(s, k) <==> x in multiset(MoveToFront(s, k));
    assert forall x :: x in s <==> x in multiset(s);
  }

  /** The literal makes a resolvent with the marked clause tautological. */
  predicate Clashes(other: int, skip: int, marks: set<int>) {
    other != skip && -other in marks
  }

  predicate HasClash(d: seq<int>, skip: int, marks: set<int>) {
    exists k :: 0 <= k < |d| && Clashes(d[k], skip, marks)
  }

  /** The first clashing literal was moved to the front; without one the order is unchanged. */
  ghost predicate Settled(before: seq<int>, after: seq<int>, skip: int, marks: set<int>) {
    if HasClash(before, skip, marks) then
      exists k :: 0 <= k < |before| && FirstClash(before, k, skip, marks) && after == MoveToFront(before, k)
    else after == before
  }

  ghost predicate FirstClash(d: seq<int>, k: int, skip: int, marks: set<int>) {
    0 <= k < |d| && Clashes(d[k], skip, marks) && forall j :: 0 <= j < k ==> !Clashes(d[j], skip, marks)
  }

  lemma SettledPermutes(before: seq<int>, after: seq<int>, skip: int, marks: set<int>)
    requires Settled(before, after, skip, marks)
    ensures multiset(after) == multiset(before) && Lits(after) == Lits(before)
  {
    if HasClash(before, skip, marks) {
      var k :| 0 <= k < |before| && FirstClash(before, k, skip, marks) && after == MoveToFront(before, k);
      MoveToFrontPermutes(before, k);
    }
  }

  /** Element `j` of a list whose first `i` elements were moved one place back. */
  ghost predicate Shifted<T>(a: seq<T>, b: seq<T>, i: int) {
    && |a| == |b| && 0 <= i <= |b|
    && (forall j :: 1 <= j < i ==> a[j] == b[j - 1]) && (forall j :: i <= j < |b| ==> a[j] == b[j])
  }

  /** Searches `d` for a literal whose negation is marked, shifting literals on the way. */
  method ScanLiterals(d: array<int>, skip: int, marks: set<int>) returns (found: bool)
    modifies d
    ensures found <==> HasClash(old(d[..]), skip, marks)
    ensures Settled(old(d[..]), d[..], skip, marks)
  {
    ghost var b := d[..];
    var prev := 0;
    var l := 0;
    while l < d.Length
      invariant 0 <= l <= d.Length && Shifted(d[..], b, l) && (l > 0 ==> prev == b[l - 1])
      invariant forall j :: 0 <= j < l ==> !Clashes(b[j], skip, marks)
    {
      var other := d[l];
      d[l] := prev;
      prev := other;
      if other != skip && -other in marks {
        d[0] := other;
        assert FirstClash(b, l, skip, marks);
        assert d[..] == MoveToFront(b, l);
        return true;
      }
      l := l + 1;
    }
    while l > 0
      invariant 0 <= l <= d.Length && Shifted(d[..], b, l) && (l > 0 ==> prev == b[l - 1])
    {
      l := l - 1;
      var other := d[l];
      d[l] := prev;
      prev := other;
    }
    assert d[..] == b;
    found := false;
  }

  // ----- blocked clauses -----

  /** All resolvents of `c` on `lit` with the clauses `ds` are tautological. */
  ghost predicate Blocked(c: set<int>, lit: int, ds: seq<seq<int>>) {
    forall i :: 0 <= i < |ds| ==> HasClash(ds[i], -lit, c)
  }

  ghost function Texts(ds: seq<array<int>>): (r: seq<seq<int>>)
    reads ds
    ensures |r| == |ds| && forall i :: 0 <= i < |ds| ==> r[i] == ds[i][..]
  {
    seq(|ds|, i requires 0 <= i < |ds| reads ds => ds[i][..])
  }

  ghost predicate Distinct(ds: seq<array<int>>) {
    forall i, j :: 0 <= i < j < |ds| ==> ds[i] != ds[j]
  }

  /** Each clause of the list has been settled or left alone. */
  ghost predicate AllSettled(before: seq<seq<int>>, after: seq<seq<int>>, skip: int, marks: set<int>, n: int) {
    && |before| == |after| && 0 <= n <= |before|
    && (forall i :: 0 <= i < n ==> Settled(before[i], after[i], skip, marks))
    && (forall i :: n <= i < |before| ==> after[i] == before[i])
  }

  /** Clause `ds[i]` was settled and its neighbours are untouched. */
  lemma SettleOne(before: seq<seq<int>>, prev: seq<seq<int>>, next: seq<seq<int>>, skip: int, marks: set<int>, i: int)
    requires AllSettled(before, prev, skip, marks, i) && i < |before| && |next| == |prev|
    requires Settled(before[i], next[i], skip, marks) && forall j :: 0 <= j < |prev| && j != i ==> next[j] == prev[j]
    ensures AllSettled(before, next, skip, marks, i + 1)
  {
    hide Settled;
  }

  /** Result of the test on the occurrence list `ds`, of which `n` clauses were looked at. */
  ghost predicate Tested(c: set<int>, lit: int, before: seq<seq<int>>, ds: seq<array<int>>, order: seq<array?<int>>, res: bool, n: int) {
    && |before| == |ds| == |order| && 0 <= n <= |ds|
    && (if res then n == |ds| && order == ds else n > 0 && order == MoveToFront(ds, n - 1) && !HasClash(before[n - 1], -lit, c))
    && (forall j :: 0 <= j < (if res then n else n - 1) ==> HasClash(before[j], -lit, c))
  }

  /** Resolves against the clause at position `i` after moving its predecessor there. */
  method ScanOccurrence(c: set<int>, lit: int, os: array<array?<int>>, i: int, prev: array?<int>, ghost ds: seq<array<int>>, ghost before: seq<seq<int>>)
    returns (taut: bool)
    requires Distinct(ds) && 0 <= i < |ds| && Shifted(os[..], ds, i) && (i > 0 ==> prev == ds[i - 1])
    requires |before| == |ds| && AllSettled(before, Texts(ds), -lit, c, i)
    modifies os, ds[i]
    ensures Shifted(os[..], ds, i + 1) && AllSettled(before, Texts(ds), -lit, c, i + 1)
    ensures taut <==> HasClash(before[i], -lit, c)
  {
    hide HasClash, Settled, AllSettled;
    ghost var now := Texts(ds);
    SettledSuffix(before, now, -lit, c, i);
    ghost var list := os[..];
    var d := os[i];
    assert d == ds[i] by {
      assert list[i] == ds[i];
    }
    os[i] := prev;
    taut := ScanLiterals(d, -lit, c);
    SettleOne(before, now, Texts(ds), -lit, c, i);
    assert os[..] == list[i := prev];
  }

  /** Moves the clauses of a fully shifted list back. */
  method RestoreOrder(os: array<array?<int>>, last: array?<int>, ghost ds: seq<array<int>>)
    requires Shifted(os[..], ds, |ds|) && (|ds| > 0 ==> last == ds[|ds| - 1])
    modifies os
    ensures os[..] == ds
  {
    var prev := last;
    var i := os.Length;
    while i > 0
      invariant 0 <= i <= os.Length == |ds| && Shifted(os[..], ds, i) && (i > 0 ==> prev == ds[i - 1])
    {
      i := i - 1;
      var d := os[i];
      os[i] := prev;
      prev := d;
    }
  }

  /** True exactly if all resolvents are tautological.  The first clause with another resolvent moves
      to the front of the occurrence list; otherwise the list keeps its order. */
  method IsBlockedClause(c: set<int>, lit: int, os: array<array?<int>>, ghost ds: seq<array<int>>) returns (res: bool, ghost n: int)
    requires os[..] == ds && Distinct(ds)
    modifies os, ds
    ensures res <==> Blocked(c, lit, old(Texts(ds)))
    ensures Tested(c, lit, old(Texts(ds)), ds, os[..], res, n)
    ensures AllSettled(old(Texts(ds)), Texts(ds), -lit, c, n)
  {
    hide HasClash, Settled, AllSettled, Texts;
    ghost var before := Texts(ds);
    StartSettled(before, -lit, c);
    var prev: array?<int> := null;
    var i := 0;
    while i < os.Length
      invariant 0 <= i <= os.Length == |ds| && Shifted(os[..], ds, i) && (i > 0 ==> prev == ds[i - 1])
      invariant forall j :: 0 <= j < i ==> HasClash(before[j], -lit, c)
      invariant AllSettled(before, Texts(ds), -lit, c, i)
    {
      var d := os[i];
      assert d == ds[i];
      var taut := ScanOccurrence(c, lit, os, i, prev, ds, before);
      prev := d;
      if !taut {
        ghost var list := os[..];
        os[0] := d;
        ShiftedFront(list, ds, i);
        assert os[..] == MoveToFront(ds, i);
        return false, i + 1;
      }
      i := i + 1;
    }
    RestoreOrder(os, prev, ds);
    res, n := true, |ds|;
  }

  lemma ShiftedFront<T>(a: seq<T>, b: seq<T>, i: int)
    requires Shifted(a, b, i + 1) && 0 <= i < |b|
    ensures a[0 := b[i]] == MoveToFront(b, i)
  {
  }

  lemma StartSettled(before: seq<seq<int>>, skip: int, marks: set<int>)
    ensures AllSettled(before, before, skip, marks, 0)
  {
  }

  lemma SettledSuffix(before: seq<seq<int>>, now: seq<seq<int>>, skip: int, marks: set<int>, i: int)
    requires AllSettled(before, now, skip, marks, i) && i < |before|
    ensures now[i] == before[i]
  {
  }

  // ----- removal and recovery -----

  /** Every resolvent on `lit` with a clause of `ns` is tautological. */
  ghost predicate BlockedBy(c: Clause, lit: int, ns: set<Clause>) {
    forall d :: d in ns ==> exists o :: o in d && Clashes(o, -lit, c)
  }

  lemma HasClashLits(d: seq<int>, skip: int, marks: set<int>)
    ensures HasClash(d, skip, marks) <==> exists o :: o in Lits(d) && Clashes(o, skip, marks)
  {
    if HasClash(d, skip, marks) {
      var k :| 0 <= k < |d| && Clashes(d[k], skip, marks);
      assert d[k] in Lits(d);
    }
  }

  lemma BlockedIsBlockedBy(c: Clause, lit: int, ds: seq<seq<int>>)
    ensures Blocked(c, lit, ds) <==> BlockedBy(c, lit, ClausesOf(ds))
  {
    hide Clashes, HasClash, Lits;
    forall i | 0 <= i < |ds|
      ensures HasClash(ds[i], -lit, c) <==> exists o :: o in Lits(ds[i]) && Clashes(o, -lit, c)
      ensures Lits(ds[i]) in ClausesOf(ds)
    {
      HasClashLits(ds[i], -lit, c);
    }
  }

  lemma SettledClauses(before: seq<seq<int>>, after: seq<seq<int>>, skip: int, marks: set<int>, n: int)
    requires AllSettled(before, after, skip, marks, n)
    ensures forall i :: 0 <= i < |before| ==> Lits(after[i]) == Lits(before[i]) && |after[i]| == |before[i]|
    ensures ClausesOf(after) == ClausesOf(before)
  {
    hide Settled, Lits;
    forall i | 0 <= i < |before|
      ensures Lits(after[i]) == Lits(before[i]) && |after[i]| == |before[i]|
    {
      if i < n {
        SettledPermutes(before[i], after[i], skip, marks);
        assert |after[i]| == |multiset(after[i])| && |before[i]| == |multiset(before[i])|;
      }
    }
    forall cl
      ensures cl in ClausesOf(after) <==> cl in ClausesOf(before)
    {
      if cl in ClausesOf(after) {
        var i :| 0 <= i < |after| && Lits(after[i]) == cl;
        assert before[i] in before;
      }
      if cl in ClausesOf(before) {
        var i :| 0 <= i < |before| && Lits(before[i]) == cl;
        assert after[i] in after;
      }
    }
  }

  /** Clauses that do not contain the negation of the literal. */
  predicate WithoutNegation(f: set<Clause>, lit: int) {
    forall cl :: cl in f ==> -lit !in cl && 0 !in cl
  }

  ghost predicate IsCandidate(c: seq<int>, lit: int) {
    Proper(c) && lit in c && -lit !in c
  }

  /** Removing a blocked clause is undone by one entry. */
  lemma BlockedRecovers(rest: set<Clause>, ns: set<Clause>, c: seq<int>, lit: int)
    requires lit != 0 && IsCandidate(c, lit) && WithoutNegation(rest, lit)
    requires (forall d :: d in ns ==> 0 !in d) && BlockedBy(Lits(c), lit, ns)
    ensures Recovers(rest + ns, rest + ns + {Lits(c)}, [Entry([lit], c)])
  {
    hide Clashes, BlockedBy;
    var es := [Entry([lit], c)];
    forall m | Models(m, rest + ns)
      ensures Models(Reconstruct(es, m), rest + ns + {Lits(c)})
    {
      var r := Reconstruct(es, m);
      assert Uniform(es, lit);
      UniformReconstruct(es, lit, m);
      TrueIsSatisfies(m, c);
      assert es[0].clause == c;
      if True(m, c) {
        assert r == m;
      } else {
        assert r == SetTrue(m, lit);
        assert Satisfies(r, Lits(c)) by {
          SetTrueHolds(m, lit, lit);
          assert lit in Lits(c);
        }
        forall d | d in rest + ns
          ensures Satisfies(r, d)
        {
          BlockedKeeps(ns, Lits(c), lit, m, d);
        }
      }
    }
  }

  lemma BlockedKeeps(ns: set<Clause>, c: Clause, lit: int, m: set<int>, d: Clause)
    requires lit != 0 && !Satisfies(m, c) && Satisfies(m, d) && 0 !in d && (-lit in d ==> d in ns) && BlockedBy(c, lit, ns)
    ensures Satisfies(SetTrue(m, lit), d)
  {
    if -lit in d {
      var o :| o in d && Clashes(o, -lit, c);
      assert !Holds(m, -o);
      SetTrueHolds(m, lit, o);
    } else {
      var l :| l in d && Holds(m, l);
      SetTrueHolds(m, lit, l);
    }
  }

  /** Clauses with the literal that have not been marked as garbage. */
  function Remaining(pos: seq<seq<int>>, garbage: set<int>): set<Clause> {
    set i | 0 <= i < |pos| && i !in garbage :: Lits(pos[i])
  }

  /** State of the removal on one literal: garbage clauses were blocked and can be recovered. */
  ghost predicate Removed(rest: set<Clause>, ns: set<Clause>, pos: seq<seq<int>>, garbage: set<int>, es: seq<Entry>) {
    Recovers(rest + ns + Remaining(pos, garbage), rest + ns + Remaining(pos, {}), es)
  }

  ghost predicate AllCandidates(pos: seq<seq<int>>, lit: int) {
    forall i :: 0 <= i < |pos| ==> IsCandidate(pos[i], lit)
  }

  lemma RemainingWithoutNegation(pos: seq<seq<int>>, lit: int, garbage: set<int>)
    requires AllCandidates(pos, lit)
    ensures WithoutNegation(Remaining(pos, garbage), lit)
  {
    forall i | 0 <= i < |pos|
      ensures -lit !in Lits(pos[i]) && 0 !in Lits(pos[i])
    {
      assert IsCandidate(pos[i], lit);
    }
  }

  /** The stored order of the literals may have changed since. */
  lemma RemoveOne(rest: set<Clause>, ns: set<Clause>, pos: seq<seq<int>>, garbage: set<int>, es: seq<Entry>, lit: int, i: int, c: seq<int>)
    requires lit != 0 && AllCandidates(pos, lit) && WithoutNegation(rest, lit) && (forall d :: d in ns ==> 0 !in d)
    requires Removed(rest, ns, pos, garbage, es) && 0 <= i < |pos| && i !in garbage && Lits(c) == Lits(pos[i])
    requires BlockedBy(Lits(c), lit, ns)
    ensures Removed(rest, ns, pos, garbage + {i}, es + [Entry([lit], c)])
  {
    hide Recovers, BlockedBy, Lits;
    var r0, r1 := Remaining(pos, garbage), Remaining(pos, garbage + {i});
    assert r0 == r1 + {Lits(c)} by {
      assert Lits(pos[i]) in r0;
    }
    RemainingWithoutNegation(pos, lit, garbage + {i});
    SameCandidate(pos[i], c, lit);
    BlockedRecovers(rest + r1, ns, c, lit);
    assert rest + r1 + ns == rest + ns + r1;
    assert rest + r1 + ns + {Lits(c)} == rest + ns + r0;
    RecoversTrans(rest + ns + r1, rest + ns + r0, rest + ns + Remaining(pos, {}), es, [Entry([lit], c)]);
  }

  lemma SameCandidate(a: seq<int>, c: seq<int>, lit: int)
    requires IsCandidate(a, lit) && Lits(c) == Lits(a)
    ensures IsCandidate(c, lit)
  {
    assert lit in Lits(c) && -lit !in Lits(c);
    forall i | 0 <= i < |c|
      ensures c[i] != 0
    {
      assert c[i] in Lits(c);
    }
  }

  lemma NothingRemoved(rest: set<Clause>, ns: set<Clause>, pos: seq<seq<int>>)
    ensures Removed(rest, ns, pos, {}, [])
  {
    RecoversNothing(rest + ns + Remaining(pos, {}));
  }

  // ----- one literal -----

  /** A pure literal: every clause with it is blocked. */
  method BlockPureLiteral(pos: seq<seq<int>>, lit: int, ghost rest: set<Clause>) returns (garbage: set<int>, es: seq<Entry>)
    requires lit != 0 && AllCandidates(pos, lit) && WithoutNegation(rest, lit)
    ensures forall i :: 0 <= i < |pos| ==> i in garbage
    ensures Removed(rest, {}, pos, garbage, es)
  {
    hide Removed, AllCandidates;
    garbage, es := {}, [];
    NothingRemoved(rest, {}, pos);
    var i := 0;
    while i < |pos|
      invariant 0 <= i <= |pos| && (forall k :: k in garbage <==> 0 <= k < i) && Removed(rest, {}, pos, garbage, es)
    {
      RemoveOne(rest, {}, pos, garbage, es, lit, i, pos[i]);
      es := es + [Entry([lit], pos[i])];
      garbage := garbage + {i};
      i := i + 1;
    }
  }

  predicate SizeOk(c: seq<int>, low: nat, high: nat) {
    low <= |c| <= high
  }

  /** A clause sharing no negated literal with any clause of the other phase cannot be blocked. */
  lemma NoCandidate(c: Clause, lit: int, ns: set<Clause>, marks: set<int>)
    requires ns != {} && (forall d, o :: d in ns && o in d ==> o in marks)
    requires forall other :: other in c && other != lit ==> -other !in marks
    ensures !BlockedBy(c, lit, ns)
  {
    var d :| d in ns;
    forall o | o in d
      ensures !Clashes(o, -lit, c)
    {
      assert -(-o) == o;
    }
  }

  /** A clause of the other phase without literals negated in any candidate rules all of them out. */
  lemma Impossible(c: Clause, lit: int, ns: set<Clause>, d: Clause, marks: set<int>)
    requires d in ns && c <= marks && forall o :: o in d ==> !Clashes(o, -lit, marks)
    ensures !BlockedBy(c, lit, ns)
  {
  }

  /** Is some literal of `c` other than `skip` negated in the marked ones? */
  method SharesNegation(c: seq<int>, skip: int, marks: set<int>) returns (b: bool)
    ensures b <==> HasClash(c, skip, marks)
  {
    var l := 0;
    while l < |c|
      invariant 0 <= l <= |c| && forall k :: 0 <= k < l ==> !Clashes(c[k], skip, marks)
    {
      if c[l] != skip && -c[l] in marks {
        return true;
      }
      l := l + 1;
    }
    b := false;
  }

  ghost function AllLits(ts: seq<seq<int>>): set<int> {
    if ts == [] then {} else AllLits(ts[..|ts| - 1]) + Lits(ts[|ts| - 1])
  }

  /** Literals of all clauses of the list. */
  method MarkAll(ts: seq<seq<int>>) returns (marks: set<int>)
    ensures forall i, o :: 0 <= i < |ts| && o in ts[i] ==> o in marks
    ensures forall o :: o in marks ==> exists i :: 0 <= i < |ts| && o in ts[i]
    ensures marks == AllLits(ts)
  {
    marks := {};
    var i := 0;
    while i < |ts|
      invariant 0 <= i <= |ts|
      invariant forall j, o :: 0 <= j < i && o in ts[j] ==> o in marks
      invariant forall o :: o in marks ==> exists j :: 0 <= j < i && o in ts[j]
      invariant marks == AllLits(ts[..i])
    {
      assert ts[..i + 1][..i] == ts[..i];
      marks := marks + Lits(ts[i]);
      i := i + 1;
    }
    assert ts[..|ts|] == ts;
  }

  /** A clause is worth trying: the right size, and blocked for all that is known so far. */
  ghost predicate Worth(c: seq<int>, lit: int, low: nat, high: nat, ns: set<Clause>) {
    SizeOk(c, low, high) && BlockedBy(Lits(c), lit, ns)
  }

  /** Filters the clauses to be tried: exactly those of the right size with a literal that is negated in
      some clause of the other phase.  No blocked clause of the right size is lost. */
  method BlockCandidates(pos: seq<seq<int>>, lit: int, low: nat, high: nat, nos: seq<seq<int>>) returns (cands: seq<int>)
    requires nos != []
    ensures forall k :: 0 <= k < |cands| ==> 0 <= cands[k] < |pos| && SizeOk(pos[cands[k]], low, high)
    ensures forall k, h :: 0 <= k < h < |cands| ==> cands[k] < cands[h]
    ensures forall i :: 0 <= i < |pos| && Worth(pos[i], lit, low, high, ClausesOf(nos)) ==> i in cands
    ensures forall i :: 0 <= i < |pos| ==> (i in cands <==> SizeOk(pos[i], low, high) && HasClash(pos[i], lit, AllLits(nos)))
  {
    hide BlockedBy, ClausesOf, HasClash;
    var marks := MarkAll(nos);
    cands := [];
    var i := 0;
    while i < |pos|
      invariant 0 <= i <= |pos|
      invariant forall k :: 0 <= k < |cands| ==> 0 <= cands[k] < i && SizeOk(pos[cands[k]], low, high)
      invariant forall k, h :: 0 <= k < h < |cands| ==> cands[k] < cands[h]
      invariant forall j :: 0 <= j < i && Worth(pos[j], lit, low, high, ClausesOf(nos)) ==> j in cands
      invariant forall j :: 0 <= j < i ==> (j in cands <==> SizeOk(pos[j], low, high) && HasClash(pos[j], lit, marks))
    {
      if SizeOk(pos[i], low, high) {
        var shares := SharesNegation(pos[i], lit, marks);
        if shares {
          cands := cands + [i];
        } else {
          NotWorth(pos[i], lit, nos, marks);
        }
      }
      i := i + 1;
    }
  }

  lemma NotWorth(c: seq<int>, lit: int, nos: seq<seq<int>>, marks: set<int>)
    requires nos != [] && !HasClash(c, lit, marks) && forall i, o :: 0 <= i < |nos| && o in nos[i] ==> o in marks
    ensures !BlockedBy(Lits(c), lit, ClausesOf(nos))
  {
    hide BlockedBy;
    assert Lits(nos[0]) in ClausesOf(nos);
    HasClashLits(c, lit, marks);
    NoCandidate(Lits(c), lit, ClausesOf(nos), marks);
  }

  lemma RuledOut(c: seq<int>, lit: int, nos: seq<seq<int>>, i: int, marks: set<int>)
    requires 0 <= i < |nos| && !HasClash(nos[i], -lit, marks) && forall o :: o in c ==> o in marks
    ensures !BlockedBy(Lits(c), lit, ClausesOf(nos))
  {
    forall o | o in Lits(nos[i])
      ensures !Clashes(o, -lit, marks)
    {
      HasClashLits(nos[i], -lit, marks);
    }
    assert nos[i] in nos;
    assert Lits(nos[i]) in ClausesOf(nos);
    assert Lits(c) <= marks by {
      forall o | o in Lits(c)
        ensures o in marks
      {
      }
    }
    Impossible(Lits(c), lit, ClausesOf(nos), Lits(nos[i]), marks);
  }

  function Chosen(pos: seq<seq<int>>, cands: seq<int>): seq<seq<int>>
    requires forall k :: 0 <= k < |cands| ==> 0 <= cands[k] < |pos|
  {
    seq(|cands|, k requires 0 <= k < |cands| => pos[cands[k]])
  }

  /** Does some clause of the other phase rule out every candidate, having no literal negated in them? */
  method BlockImpossible(pos: seq<seq<int>>, cands: seq<int>, lit: int, nos: seq<seq<int>>) returns (none: bool)
    requires forall k :: 0 <= k < |cands| ==> 0 <= cands[k] < |pos|
    ensures none ==> forall k :: 0 <= k < |cands| ==> !BlockedBy(Lits(pos[cands[k]]), lit, ClausesOf(nos))
    ensures none <==> exists i :: 0 <= i < |nos| && !HasClash(nos[i], -lit, AllLits(Chosen(pos, cands)))
  {
    hide BlockedBy, HasClash;
    var texts := Chosen(pos, cands);
    var marks := MarkAll(texts);
    none := false;
    var i := 0;
    while i < |nos|
      invariant 0 <= i <= |nos|
      invariant none ==> forall k :: 0 <= k < |cands| ==> !BlockedBy(Lits(pos[cands[k]]), lit, ClausesOf(nos))
      invariant none <==> exists j :: 0 <= j < i && !HasClash(nos[j], -lit, marks)
    {
      var shares := SharesNegation(nos[i], -lit, marks);
      if !shares {
        none := true;
        forall k | 0 <= k < |cands|
          ensures !BlockedBy(Lits(pos[cands[k]]), lit, ClausesOf(nos))
        {
          RuledOut(texts[k], lit, nos, i, marks);
        }
      }
      i := i + 1;
    }
  }

  lemma DistinctMoved(ds: seq<array<int>>, k: int)
    requires Distinct(ds) && 0 <= k < |ds|
    ensures Distinct(MoveToFront(ds, k))
  {
  }

  ghost predicate SameClauses(a: seq<array<int>>, b: seq<array<int>>) {
    (forall i :: 0 <= i < |a| ==> a[i] in b) && (forall i :: 0 <= i < |b| ==> b[i] in a)
  }

  lemma SameClausesOf(a: seq<array<int>>, b: seq<array<int>>)
    requires SameClauses(a, b)
    ensures ClausesOf(Texts(a)) == ClausesOf(Texts(b))
  {
    SubClausesOf(a, b);
    SubClausesOf(b, a);
  }

  lemma SubClausesOf(a: seq<array<int>>, b: seq<array<int>>)
    requires SameClauses(a, b)
    ensures ClausesOf(Texts(a)) <= ClausesOf(Texts(b))
  {
    forall t | t in Texts(a)
      ensures t in Texts(b)
    {
      var i :| 0 <= i < |a| && Texts(a)[i] == t;
      assert a[i] in b;
      var j :| 0 <= j < |b| && b[j] == a[i];
      assert Texts(b)[j] == t;
    }
  }

  /** The test leaves the set of clauses of the other phase as it was. */
  method TryBlock(c: set<int>, lit: int, os: array<array?<int>>, ghost ds: seq<array<int>>) returns (res: bool, ghost order: seq<array<int>>)
    requires os[..] == ds && Distinct(ds)
    modifies os, ds
    ensures res <==> BlockedBy(c, lit, old(ClausesOf(Texts(ds))))
    ensures os[..] == order && Distinct(order) && SameClauses(order, ds)
    ensures ClausesOf(Texts(order)) == old(ClausesOf(Texts(ds)))
  {
    hide BlockedBy, AllSettled, Blocked, HasClash, Texts, ClausesOf, MoveToFront, Distinct, SameClauses;
    ghost var before := Texts(ds);
    SameAsBefore(ds);
    BlockedIsBlockedBy(c, lit, before);
    ghost var n;
    res, n := IsBlockedClause(c, lit, os, ds);
    SettledClauses(before, Texts(ds), -lit, c, n);
    if res {
      order := ds;
    } else {
      order := MoveToFront(ds, n - 1);
      MovedOrder(ds, n - 1);
    }
    SameClausesOf(order, ds);
  }

  lemma SameAsBefore(ds: seq<array<int>>)
    ensures SameClauses(ds, ds)
  {
  }

  lemma MovedOrder(ds: seq<array<int>>, k: int)
    requires Distinct(ds) && 0 <= k < |ds|
    ensures Distinct(MoveToFront(ds, k)) && SameClauses(MoveToFront(ds, k), ds)
  {
    DistinctMoved(ds, k);
    MoveToFrontPermutes(ds, k);
  }

  /** The literals of the clauses in the occurrence list. */
  method ReadTexts(os: array<array?<int>>, ghost ds: seq<array<int>>) returns (ts: seq<seq<int>>)
    requires os[..] == ds
    ensures ts == Texts(ds)
  {
    ts := [];
    var i := 0;
    while i < os.Length
      invariant 0 <= i <= os.Length == |ds| && |ts| == i && forall j :: 0 <= j < i ==> ts[j] == ds[j][..]
    {
      var d := os[i];
      assert d == ds[i];
      ts := ts + [d[..]];
      i := i + 1;
    }
  }

  method AllSmall(ts: seq<seq<int>>, high: nat) returns (b: bool)
    ensures b <==> forall i :: 0 <= i < |ts| ==> |ts[i]| <= high
  {
    var size := 0;
    var i := 0;
    while i < |ts|
      invariant 0 <= i <= |ts|
      invariant size <= high <==> forall j :: 0 <= j < i ==> |ts[j]| <= high
    {
      if |ts[i]| > size {
        size := |ts[i]|;
      }
      i := i + 1;
    }
    b := size <= high;
  }

  /** Several clauses of the other phase, none too large: exactly the blocked clauses of the right
      size are removed. */
  method BlockWithNegatives(pos: seq<seq<int>>, lit: int, os: array<array?<int>>, ghost ds: seq<array<int>>, low: nat, high: nat, ghost rest: set<Clause>)
    returns (garbage: set<int>, es: seq<Entry>)
    requires lit != 0 && AllCandidates(pos, lit) && WithoutNegation(rest, lit)
    requires os[..] == ds && Distinct(ds) && ds != [] && AllCandidates(Texts(ds), -lit)
    modifies os, ds
    ensures if forall i :: 0 <= i < |ds| ==> |old(Texts(ds))[i]| <= high
            then forall i :: i in garbage <==> 0 <= i < |pos| && Worth(pos[i], lit, low, high, old(ClausesOf(Texts(ds))))
            else garbage == {}
    ensures ClausesOf(Texts(ds)) == old(ClausesOf(Texts(ds)))
    ensures Removed(rest, old(ClausesOf(Texts(ds))), pos, garbage, es)
  {
    hide BlockedBy, Removed, AllCandidates, SizeOk, Texts, ClausesOf, WithoutNegation, HasClash, AllLits, Chosen;
    garbage, es := {}, [];
    ghost var ns := ClausesOf(Texts(ds));
    NothingRemoved(rest, ns, pos);
    var nos := ReadTexts(os, ds);
    NoZero(nos, -lit);
    var small := AllSmall(nos, high);
    if !small {
      return;
    }
    var cands := BlockCandidates(pos, lit, low, high, nos);
    if |cands| > 1 {
      var none := BlockImpossible(pos, cands, lit, nos);
      if none {
        return;
      }
    }
    ghost var order := ds;
    var k := 0;
    while k < |cands|
      invariant 0 <= k <= |cands| && os[..] == order && Distinct(order) && SameClauses(order, ds)
      invariant ClausesOf(Texts(order)) == ns && Removed(rest, ns, pos, garbage, es)
      invariant forall i :: i in garbage <==> i in cands[..k] && BlockedBy(Lits(pos[i]), lit, ns)
    {
      var i := cands[k];
      assert cands[..k + 1] == cands[..k] + [i];
      var res;
      res, order := TryBlock(Lits(pos[i]), lit, os, order);
      if res {
        RemoveOne(rest, ns, pos, garbage, es, lit, i, pos[i]);
        es := es + [Entry([lit], pos[i])];
        garbage := garbage + {i};
      }
      k := k + 1;
    }
    SameClausesOf(order, ds);
    assert cands[..|cands|] == cands;
  }

  lemma NoZero(ts: seq<seq<int>>, lit: int)
    requires AllCandidates(ts, lit)
    ensures forall d :: d in ClausesOf(ts) ==> 0 !in d
  {
    RemainingWithoutNegation(ts, lit, {});
    assert ClausesOf(ts) <= Remaining(ts, {}) by {
      forall t | t in ts
        ensures Lits(t) in Remaining(ts, {})
      {
        var i :| 0 <= i < |ts| && ts[i] == t;
      }
    }
  }

  /** One clause `d` of the other phase: it is marked, and the literals of the candidates shift. */
  method BlockWithOneNegative(pos: seq<array<int>>, lit: int, d: seq<int>, low: nat, high: nat, ghost rest: set<Clause>)
    returns (garbage: set<int>, es: seq<Entry>)
    requires lit != 0 && Distinct(pos) && AllCandidates(Texts(pos), lit) && WithoutNegation(rest, lit) && AllCandidates([d], -lit)
    modifies pos
    ensures if |d| <= high
            then forall i :: i in garbage <==> 0 <= i < |pos| && Worth(old(Texts(pos))[i], lit, low, high, {Lits(d)})
            else garbage == {}
    ensures forall i :: 0 <= i < |pos| ==> multiset(pos[i][..]) == old(multiset(pos[i][..]))
    ensures Removed(rest, {Lits(d)}, old(Texts(pos)), garbage, es)
  {
    hide BlockedBy, Removed, AllCandidates, WithoutNegation, Lits;
    garbage, es := {}, [];
    ghost var ts := Texts(pos);
    NothingRemoved(rest, {Lits(d)}, ts);
    OneClause(d, -lit);
    if |d| > high {
      return;
    }
    var i := 0;
    while i < |pos|
      invariant 0 <= i <= |pos|
      invariant forall k :: i <= k < |pos| ==> pos[k][..] == ts[k]
      invariant forall k :: 0 <= k < |pos| ==> multiset(pos[k][..]) == multiset(ts[k])
      invariant forall k :: k in garbage <==> 0 <= k < i && Worth(ts[k], lit, low, high, {Lits(d)})
      invariant Removed(rest, {Lits(d)}, ts, garbage, es)
    {
      var c := pos[i];
      if low <= c.Length <= high {
        var found := TryOne(c, lit, d);
        if found {
          RemoveOne(rest, {Lits(d)}, ts, garbage, es, lit, i, c[..]);
          es := es + [Entry([lit], c[..])];
          garbage := garbage + {i};
        }
      }
      i := i + 1;
    }
  }

  /** Tests one clause against the marked clause of the other phase. */
  method TryOne(c: array<int>, lit: int, d: seq<int>) returns (found: bool)
    modifies c
    ensures found <==> BlockedBy(old(Lits(c[..])), lit, {Lits(d)})
    ensures multiset(c[..]) == old(multiset(c[..])) && Lits(c[..]) == old(Lits(c[..]))
  {
    hide BlockedBy, HasClash, Settled, Lits;
    ghost var before := c[..];
    found := ScanLiterals(c, lit, Lits(d));
    SettledPermutes(before, c[..], lit, Lits(d));
    OneNegative(before, lit, d);
  }

  lemma OneClause(d: seq<int>, lit: int)
    requires AllCandidates([d], lit)
    ensures forall cl :: cl in {Lits(d)} ==> 0 !in cl
  {
    NoZero([d], lit);
    assert ClausesOf([d]) == {Lits(d)};
  }

  lemma OneNegative(c: seq<int>, lit: int, d: seq<int>)
    ensures HasClash(c, lit, Lits(d)) <==> BlockedBy(Lits(c), lit, {Lits(d)})
  {
    HasClashLits(c, lit, Lits(d));
    if k :| k in Lits(c) && Clashes(k, lit, Lits(d)) {
      assert -k in Lits(d) && Clashes(-k, -lit, Lits(c));
    }
    if o :| o in Lits(d) && Clashes(o, -lit, Lits(c)) {
      assert -o in Lits(c) && Clashes(-o, lit, Lits(d));
    }
  }
}
