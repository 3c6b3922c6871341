/** Conflict analysis: derivation of the first-UIP clause and its recursive minimisation. */
module Analyze {
  import opened Cnf
  import opened Extension
  import opened Trail

  /** Seen literals of the conflict level that lie before position `i` and are not yet resolved. */
  function OpenSet(a: Assignment, level: int, seen: set<int>, i: int): set<int> {
    set t | t in seen && t in a.info && a.info[t].level == level && a.info[t].pos < i
  }

  /** Seen literals are true, above the root level; those below the conflict level are exactly the
      negated literals of the clause. */
  ghost predicate SeenOk(a: Assignment, level: int, seen: set<int>, clause: seq<int>) {
    && (forall t :: t in seen ==> t in a.info && 0 < a.info[t].level <= level)
    && (forall l :: l in clause ==> -l in seen && a.info[-l].level < level)
    && (forall t :: t in seen && a.info[t].level < level ==> -t in clause)
    && NoDuplicates(clause)
  }

  ghost predicate Covers(f: set<Clause>, cl: Clause, uip: int) {
    forall m :: Models(m, f) ==> Satisfies(m, cl) || (uip != 0 && Holds(m, -uip))
  }

  /** The current resolvent: the clause and the negations of the open literals. */
  function Resolvent(a: Assignment, level: int, seen: set<int>, clause: seq<int>, i: int): Clause {
    Lits(clause) + Negated(OpenSet(a, level, seen, i))
  }

  /** A clause of the formula whose literals other than `uip` are false, assigned before `i`. */
  ghost predicate Antecedent(f: set<Clause>, a: Assignment, level: int, reason: seq<int>, uip: int, i: int) {
    && Lits(reason) in f
    && forall o :: o in reason && o != uip ==> FalseBefore(a, o, i) && a.info[-o].level <= level
  }

  /** A literal of the antecedent is accounted for. */
  ghost predicate Analyzed(a: Assignment, seen: set<int>, l: int) {
    -l in a.info && (a.info[-l].level == 0 || -l in seen)
  }

  lemma ResolventGrows(a: Assignment, level: int, seen: set<int>, clause: seq<int>, seen': set<int>, clause': seq<int>, i: int)
    requires seen <= seen' && clause <= clause'
    ensures Resolvent(a, level, seen, clause, i) <= Resolvent(a, level, seen', clause', i)
  {
    assert OpenSet(a, level, seen, i) <= OpenSet(a, level, seen', i);
    forall l | l in Lits(clause)
      ensures l in Lits(clause')
    {
      var k :| 0 <= k < |clause| && clause[k] == l;
      assert clause'[k] == l;
    }
  }

  /** Resolution of the current resolvent with an antecedent all of whose literals were analysed. */
  lemma Resolved(f: set<Clause>, a: Assignment, level: int, reason: seq<int>, uip: int, i: int, seen: set<int>, clause: seq<int>)
    requires TrailSound(f, a) && SeenOk(a, level, seen, clause) && Antecedent(f, a, level, reason, uip, i)
    requires Covers(f, Resolvent(a, level, seen, clause, i), uip) || (uip == 0 && uip !in reason)
    requires forall o :: o in reason && o != uip ==> Analyzed(a, seen, o)
    ensures Covers(f, Resolvent(a, level, seen, clause, i), 0)
  {
    hide ReasonOk, FirstOfLevel, ImpliedLiteral;
    var cl := Resolvent(a, level, seen, clause, i);
    forall m | Models(m, f)
      ensures Satisfies(m, cl)
    {
      assert Satisfies(m, Lits(reason));
      var o :| o in Lits(reason) && Holds(m, o);
      if o != uip {
        InResolvent(f, a, level, reason, uip, i, seen, clause, m, o);
      }
    }
  }

  lemma InResolvent(f: set<Clause>, a: Assignment, level: int, reason: seq<int>, uip: int, i: int, seen: set<int>, clause: seq<int>, m: set<int>, o: int)
    requires TrailSound(f, a) && SeenOk(a, level, seen, clause) && Antecedent(f, a, level, reason, uip, i)
    requires Models(m, f) && o in reason && o != uip && Holds(m, o) && Analyzed(a, seen, o)
    ensures o in Resolvent(a, level, seen, clause, i)
  {
    hide ReasonOk, FirstOfLevel, ImpliedLiteral, Models;
    assert FalseBefore(a, o, i);
    assert o != 0;
    if a.info[-o].level == 0 {
      RootHolds(f, a, -o, m);
    } else if a.info[-o].level < level {
      assert -(-o) in clause;
    } else {
      assert -o in OpenSet(a, level, seen, i);
      assert -(-o) in Negated(OpenSet(a, level, seen, i));
    }
  }

  /** The learned clause: implied, false on the trail, with exactly one literal of the level. */
  ghost predicate Learned(f: set<Clause>, a: Assignment, level: int, clause: seq<int>, uip: int) {
    && Covers(f, Lits(clause), 0) && NoDuplicates(clause) && -uip in clause
    && forall l :: l in clause ==> -l in a.info && 0 < a.info[-l].level && (a.info[-l].level == level <==> l == -uip)
  }

  /** A conflict: a clause of the formula, false on the trail, with a literal of the level. */
  ghost predicate Conflict(f: set<Clause>, a: Assignment, level: int, c: seq<int>) {
    && Lits(c) in f && level > 0
    && (forall o :: o in c ==> -o in a.info && a.info[-o].level <= level)
    && exists o :: o in c && -o in a.info && a.info[-o].level == level
  }

  // ----- what the analysis computes -----

  /** Negations of the false literals of `c` other than `x` that are assigned above the root. */
  ghost function FalseOf(a: Assignment, c: seq<int>, x: int): set<int> {
    set t | t in a.info && a.info[t].level > 0 && -t in c && -t != x
  }

  /** Literals reached from the conflict when all reasons of the level from position `i` on have been
      resolved. */
  ghost function Marks(a: Assignment, level: int, conflict: seq<int>, i: int): set<int>
    decreases |a.trail| - i
  {
    if i < 0 || i >= |a.trail| then FalseOf(a, conflict, 0)
    else
      var t, m := a.trail[i], Marks(a, level, conflict, i + 1);
      if t in m && t in a.info && a.info[t].level == level then m + FalseOf(a, a.info[t].reason, t) else m
  }

  ghost function Frontier(a: Assignment, level: int, conflict: seq<int>, i: int): set<int> {
    OpenSet(a, level, Marks(a, level, conflict, i), i)
  }

  /** From position `i` on, whenever a literal is resolved another one is left. */
  ghost predicate OthersLeft(a: Assignment, level: int, conflict: seq<int>, i: int) {
    forall j :: i <= j < |a.trail| && 0 <= j && a.trail[j] in Frontier(a, level, conflict, j + 1) ==> |Frontier(a, level, conflict, j + 1)| > 1
  }

  /** The first literal met, going back along the trail, that is the only one left. */
  ghost predicate IsFirstUip(a: Assignment, level: int, conflict: seq<int>, uip: int) {
    && uip in a.info && a.info[uip].level == level && Frontier(a, level, conflict, a.info[uip].pos + 1) == {uip}
    && OthersLeft(a, level, conflict, a.info[uip].pos + 1)
  }

  /** Its negation and those of the literals reached on lower levels. */
  ghost function UipClause(a: Assignment, level: int, conflict: seq<int>, uip: int): Clause
    requires uip in a.info
  {
    Negated(Lower(a, level, Marks(a, level, conflict, a.info[uip].pos + 1))) + {-uip}
  }

  ghost function Lower(a: Assignment, level: int, marks: set<int>): set<int> {
    set t | t in marks && t in a.info && a.info[t].level < level
  }

  lemma SeenClause(a: Assignment, level: int, seen: set<int>, clause: seq<int>)
    requires SeenOk(a, level, seen, clause)
    ensures Lits(clause) == Negated(Lower(a, level, seen))
  {
    forall l
      ensures l in Lits(clause) <==> l in Negated(Lower(a, level, seen))
    {
      assert -(-l) == l;
      if l in clause {
        assert -l in Lower(a, level, seen);
      }
    }
  }

  class Analyzer {
    ghost const f: set<Clause>
    const a: Assignment
    const level: int
    var clause: seq<int>
    var analyzed: seq<int>
    var seen: set<int>
    var open: int

    ghost predicate Valid(i: int)
      reads this
    {
      && TrailSound(f, a) && SeenOk(a, level, seen, clause)
      && open == |OpenSet(a, level, seen, i)| && seen == Lits(analyzed)
    }

    constructor (assignment: Assignment, current: int, ghost formula: set<Clause>)
      requires TrailSound(formula, assignment)
      ensures a == assignment && level == current && f == formula
      ensures seen == {} && clause == [] && analyzed == [] && open == 0
      ensures forall i :: Valid(i)
    {
      a, level, f := assignment, current, formula;
      clause, analyzed, seen, open := [], [], {}, 0;
    }

    /** Marks one literal: it joins the clause, or is counted as open, or is dropped if fixed. */
    method AnalyzeLiteral(lit: int, ghost i: int)
      requires Valid(i) && FalseBefore(a, lit, i) && a.info[-lit].level <= level
      modifies this`clause, this`analyzed, this`seen, this`open
      ensures Valid(i) && Analyzed(a, seen, lit)
      ensures old(seen) <= seen && old(clause) <= clause
      ensures open >= old(open) && seen == old(seen) + if a.info[-lit].level == 0 then {} else {-lit}
    {
      hide ReasonOk, FirstOfLevel, ImpliedLiteral, Positions, SeenOk;
      var t := -lit;
      if t in seen {
        return;
      }
      var v := a.info[t];
      if v.level == 0 {
        return;
      }
      ghost var before := OpenSet(a, level, seen, i);
      SeenMore(a, level, seen, clause, lit);
      if v.level < level {
        clause := clause + [lit];
      }
      seen := seen + {t};
      LitsAdd(analyzed, t);
      analyzed := analyzed + [t];
      if v.level == level {
        assert OpenSet(a, level, seen, i) == before + {t};
        open := open + 1;
      } else {
        assert OpenSet(a, level, seen, i) == before;
      }
    }

    method AnalyzeReason(uip: int, reason: seq<int>, ghost i: int)
      requires Valid(i) && Antecedent(f, a, level, reason, uip, i)
      requires Covers(f, Resolvent(a, level, seen, clause, i), uip) || (uip == 0 && uip !in reason)
      modifies this`clause, this`analyzed, this`seen, this`open
      ensures Valid(i) && open >= old(open) && seen == old(seen) + FalseOf(a, reason, uip)
      ensures Covers(f, Resolvent(a, level, seen, clause, i), 0)
      ensures forall o :: o in reason && o != uip ==> Analyzed(a, seen, o)
    {
      hide TrailSound, SeenOk, OpenSet, Covers, Resolvent, FalseOf;
      NothingFalse(a, reason, uip);
      NaturalLevels(f, a);
      ghost var seen0, clause0 := seen, clause;
      var k := 0;
      while k < |reason|
        invariant 0 <= k <= |reason| && Valid(i) && seen0 <= seen && clause0 <= clause && open >= old(open)
        invariant forall j :: 0 <= j < k && reason[j] != uip ==> Analyzed(a, seen, reason[j])
        invariant seen == seen0 + FalseOf(a, reason[..k], uip)
      {
        assert reason[k] in reason;
        FalseMore(a, reason, uip, k);
        if reason[k] != uip {
          assert reason[k] in reason;
          AnalyzeLiteral(reason[k], i);
        }
        k := k + 1;
      }
      assert reason[..|reason|] == reason;
      ResolventGrows(a, level, seen0, clause0, seen, clause, i);
      CoversMore(f, Resolvent(a, level, seen0, clause0, i), Resolvent(a, level, seen, clause, i), uip);
      Resolved(f, a, level, reason, uip, i, seen, clause);
    }

    /** The last assigned open literal; no seen literal of the level lies between. */
    method NextUip(i: int) returns (k: int, uip: int)
      requires Valid(i) && 0 <= i <= |a.trail| && open > 0
      ensures uip in a.info && a.info[uip].level == level && a.info[uip].pos == k
      ensures 0 <= k < i && uip == a.trail[k] && uip in OpenSet(a, level, seen, i) && uip != 0
      ensures OpenSet(a, level, seen, k) == OpenSet(a, level, seen, i) - {uip}
      ensures NoneBetween(a, level, seen, k, i)
    {
      hide ReasonOk, ImpliedLiteral, FirstOfLevel, SeenOk;
      k, uip := i, 0;
      while uip == 0
        invariant 0 <= k <= i && (uip == 0 ==> OpenSet(a, level, seen, k) == OpenSet(a, level, seen, i))
        invariant forall j :: (if uip == 0 then k - 1 else k) < j < i ==> !(a.trail[j] in seen && a.trail[j] in a.info && a.info[a.trail[j]].level == level)
        invariant uip != 0 ==> k < i && uip == a.trail[k] && uip in OpenSet(a, level, seen, i) && OpenSet(a, level, seen, k) == OpenSet(a, level, seen, i) - {uip}
        decreases k, uip == 0
      {
        OpenBefore(a, level, seen, k);
        k := k - 1;
        var lit := a.trail[k];
        OpenStep(f, a, level, seen, k);
        if lit in seen && a.info[lit].level == level {
          uip := lit;
        }
      }
    }

    /** Resolves reasons along the trail until one open literal of the level is left. */
    method FirstUip(conflict: seq<int>) returns (uip: int)
      requires seen == {} && clause == [] && analyzed == [] && open == 0
      requires TrailSound(f, a) && Conflict(f, a, level, conflict)
      modifies this`clause, this`analyzed, this`seen, this`open
      ensures Learned(f, a, level, clause, uip) && seen == Lits(analyzed)
      ensures IsFirstUip(a, level, conflict, uip) && Lits(clause) == UipClause(a, level, conflict, uip)
    {
      hide TrailSound, SeenOk, OpenSet, Covers, Resolvent, Analyzed, FalseOf, Marks, Frontier, IsFirstUip, UipClause, Lower, OthersLeft, NoneBetween;
      StartMarks(a, level, conflict);
      var reason := conflict;
      var i := |a.trail|;
      uip := 0;
      StartAnalysis(f, a, level, conflict);
      while true
        invariant Valid(i) && 0 <= i <= |a.trail| && Antecedent(f, a, level, reason, uip, i)
        invariant Covers(f, Resolvent(a, level, seen, clause, i), uip) || (uip == 0 && uip !in reason)
        invariant open > 0 || HasLevel(a, level, reason, uip)
        invariant seen + FalseOf(a, reason, uip) == Marks(a, level, conflict, i)
        invariant OthersLeft(a, level, conflict, i)
        decreases i
      {
        AnalyzeReason(uip, reason, i);
        LevelIsOpen(f, a, level, reason, uip, i, seen);
        var k;
        k, uip := NextUip(i);
        SplitUip(f, a, level, seen, clause, i, k, uip);
        ghost var j := i;
        FrontierKept(f, a, level, conflict, seen, k, j, uip);
        i := k;
        open := open - 1;
        if open == 0 {
          FirstFound(a, level, conflict, seen, k, j, uip);
          break;
        }
        NotYetFirst(a, level, conflict, seen, k, j, uip);
        HasReason(f, a, level, seen, i, uip);
        reason := a.info[uip].reason;
      }
      Finish(f, a, level, seen, clause, i, uip);
      ExactClause(a, level, conflict, seen, clause, i, uip);
      clause := clause + [-uip];
    }
  }

  lemma NaturalLevels(f: set<Clause>, a: Assignment)
    requires TrailSound(f, a)
    ensures forall t :: t in a.info ==> a.info[t].level >= 0
  {
  }

  lemma NothingFalse(a: Assignment, c: seq<int>, x: int)
    ensures FalseOf(a, c[..0], x) == {}
  {
  }

  lemma FalseMore(a: Assignment, c: seq<int>, x: int, k: int)
    requires 0 <= k < |c| && (c[k] != x ==> -c[k] in a.info && a.info[-c[k]].level >= 0)
    ensures FalseOf(a, c[..k + 1], x) ==
            FalseOf(a, c[..k], x) + if c[k] == x || a.info[-c[k]].level == 0 then {} else {-c[k]}
  {
    assert c[..k + 1] == c[..k] + [c[k]];
    forall t
      ensures t in FalseOf(a, c[..k + 1], x) <==> t in FalseOf(a, c[..k], x) || (t == -c[k] && c[k] != x && a.info[-c[k]].level > 0)
    {
      assert -t == c[k] <==> t == -c[k];
    }
  }

  lemma StartMarks(a: Assignment, level: int, conflict: seq<int>)
    ensures Marks(a, level, conflict, |a.trail|) == {} + FalseOf(a, conflict, 0) && OthersLeft(a, level, conflict, |a.trail|)
  {
  }

  /** Nothing is resolved between the last two open positions. */
  lemma {:induction false} MarksKept(a: Assignment, level: int, conflict: seq<int>, seen: set<int>, j: int, i: int)
    requires 0 <= j <= i <= |a.trail| && seen == Marks(a, level, conflict, i)
    requires forall h :: j <= h < i ==> !(a.trail[h] in seen && a.trail[h] in a.info && a.info[a.trail[h]].level == level)
    ensures Marks(a, level, conflict, j) == seen
    decreases i - j
  {
    if j < i {
      MarksKept(a, level, conflict, seen, j + 1, i);
    }
  }

  lemma {:induction false} OpenKept(f: set<Clause>, a: Assignment, level: int, seen: set<int>, j: int, i: int)
    requires Positions(a) && 0 <= j <= i <= |a.trail|
    requires forall h :: j <= h < i ==> !(a.trail[h] in seen && a.trail[h] in a.info && a.info[a.trail[h]].level == level)
    ensures OpenSet(a, level, seen, j) == OpenSet(a, level, seen, i)
    decreases i - j
  {
    hide OpenSet;
    if j < i {
      OpenStep(f, a, level, seen, j);
      OpenKept(f, a, level, seen, j + 1, i);
    }
  }

  /** From the next open literal up to the previous one the frontier is the set of open literals. */
  lemma FrontierKept(f: set<Clause>, a: Assignment, level: int, conflict: seq<int>, seen: set<int>, k: int, i: int, uip: int)
    requires TrailSound(f, a) && 0 <= k < i <= |a.trail| && seen == Marks(a, level, conflict, i)
    requires NoneBetween(a, level, seen, k, i)
    ensures forall j :: k < j <= i ==> Marks(a, level, conflict, j) == seen && Frontier(a, level, conflict, j) == OpenSet(a, level, seen, i)
  {
    hide ReasonOk, FirstOfLevel, ImpliedLiteral, Marks, OpenSet;
    forall j | k < j <= i
      ensures Marks(a, level, conflict, j) == seen && Frontier(a, level, conflict, j) == OpenSet(a, level, seen, i)
    {
      MarksKept(a, level, conflict, seen, j, i);
      OpenKept(f, a, level, seen, j, i);
    }
  }

  /** The reason of an open literal that is not the last one is resolved next. */
  lemma NotYetFirst(a: Assignment, level: int, conflict: seq<int>, seen: set<int>, k: int, i: int, uip: int)
    requires 0 <= k < i <= |a.trail| && uip == a.trail[k] && uip in a.info && a.info[uip].level == level && uip in OpenSet(a, level, seen, i)
    requires forall j :: k < j <= i ==> Marks(a, level, conflict, j) == seen && Frontier(a, level, conflict, j) == OpenSet(a, level, seen, i)
    requires OthersLeft(a, level, conflict, i) && NoneBetween(a, level, seen, k, i)
    requires OpenSet(a, level, seen, k) == OpenSet(a, level, seen, i) - {uip} && |OpenSet(a, level, seen, k)| > 0
    ensures seen + FalseOf(a, a.info[uip].reason, uip) == Marks(a, level, conflict, k)
    ensures OthersLeft(a, level, conflict, k)
  {
    hide FalseOf, Frontier;
    assert Marks(a, level, conflict, k + 1) == seen;
    NoneOpen(a, level, seen, k, i);
    hide OpenSet, Marks;
    assert OpenSet(a, level, seen, i) == OpenSet(a, level, seen, k) + {uip};
  }

  /** No seen literal of the level strictly between two positions. */
  ghost predicate NoneBetween(a: Assignment, level: int, seen: set<int>, k: int, i: int)
    requires 0 <= k < i <= |a.trail|
  {
    forall j :: k < j < i ==> !(a.trail[j] in seen && a.trail[j] in a.info && a.info[a.trail[j]].level == level)
  }

  lemma NoneOpen(a: Assignment, level: int, seen: set<int>, k: int, i: int)
    requires 0 <= k < i <= |a.trail| && NoneBetween(a, level, seen, k, i)
    ensures forall j :: k < j < i ==> a.trail[j] !in OpenSet(a, level, seen, i)
  {
  }

  /** A single open literal is the first unique implication point. */
  lemma FirstFound(a: Assignment, level: int, conflict: seq<int>, seen: set<int>, k: int, i: int, uip: int)
    requires 0 <= k < i <= |a.trail| && uip == a.trail[k] && uip in a.info && a.info[uip].level == level && a.info[uip].pos == k
    requires uip in OpenSet(a, level, seen, i)
    requires forall j :: k < j <= i ==> Marks(a, level, conflict, j) == seen && Frontier(a, level, conflict, j) == OpenSet(a, level, seen, i)
    requires OthersLeft(a, level, conflict, i) && NoneBetween(a, level, seen, k, i)
    requires OpenSet(a, level, seen, k) == OpenSet(a, level, seen, i) - {uip} && |OpenSet(a, level, seen, k)| == 0
    ensures IsFirstUip(a, level, conflict, uip) && Marks(a, level, conflict, k + 1) == seen
  {
    NoneOpen(a, level, seen, k, i);
    hide OpenSet, Frontier, Marks;
    assert OpenSet(a, level, seen, i) == OpenSet(a, level, seen, k) + {uip};
  }

  lemma ExactClause(a: Assignment, level: int, conflict: seq<int>, seen: set<int>, clause: seq<int>, k: int, uip: int)
    requires SeenOk(a, level, seen, clause) && uip in a.info && a.info[uip].pos == k && Marks(a, level, conflict, k + 1) == seen
    ensures Lits(clause + [-uip]) == UipClause(a, level, conflict, uip)
  {
    hide Marks, SeenOk, Lower;
    SeenClause(a, level, seen, clause);
    LitsAdd(clause, -uip);
  }

  lemma SeenMore(a: Assignment, level: int, seen: set<int>, clause: seq<int>, lit: int)
    requires SeenOk(a, level, seen, clause) && -lit in a.info && 0 < a.info[-lit].level <= level && -lit !in seen
    ensures SeenOk(a, level, seen + {-lit}, if a.info[-lit].level < level then clause + [lit] else clause)
  {
    var c := if a.info[-lit].level < level then clause + [lit] else clause;
    assert lit !in clause;
    forall t | t in seen + {-lit} && a.info[t].level < level
      ensures -t in c
    {
      if t == -lit {
        assert -t == lit;
      }
    }
  }

  lemma CoversMore(f: set<Clause>, x: Clause, y: Clause, uip: int)
    requires x <= y
    ensures Covers(f, x, uip) ==> Covers(f, y, uip)
  {
    assert forall m :: Satisfies(m, x) ==> Satisfies(m, y);
  }

  ghost predicate HasLevel(a: Assignment, level: int, reason: seq<int>, uip: int) {
    exists o :: o in reason && o != uip && -o in a.info && a.info[-o].level == level
  }

  lemma StartAnalysis(f: set<Clause>, a: Assignment, level: int, conflict: seq<int>)
    requires TrailSound(f, a) && Conflict(f, a, level, conflict)
    ensures SeenOk(a, level, {}, []) && OpenSet(a, level, {}, |a.trail|) == {} && 0 !in conflict
    ensures Antecedent(f, a, level, conflict, 0, |a.trail|) && HasLevel(a, level, conflict, 0)
  {
    hide ReasonOk, ImpliedLiteral, FirstOfLevel;
    assert 0 !in conflict by {
      assert -0 == 0;
    }
  }

  lemma OpenBefore(a: Assignment, level: int, seen: set<int>, k: int)
    requires Positions(a) && |OpenSet(a, level, seen, k)| > 0
    ensures k > 0
  {
    var t := Member(OpenSet(a, level, seen, k));
  }

  lemma OpenStep(f: set<Clause>, a: Assignment, level: int, seen: set<int>, k: int)
    requires Positions(a) && 0 <= k < |a.trail|
    ensures var t := a.trail[k];
      OpenSet(a, level, seen, k + 1) ==
      if t in seen && a.info[t].level == level then OpenSet(a, level, seen, k) + {t} else OpenSet(a, level, seen, k)
    ensures a.trail[k] !in OpenSet(a, level, seen, k)
  {
    var t := a.trail[k];
    forall x
      ensures x in OpenSet(a, level, seen, k + 1) <==> x in OpenSet(a, level, seen, k) || (x == t && t in seen && a.info[t].level == level)
    {
      if x in a.info && a.info[x].pos == k {
        assert x == t;
      }
    }
  }

  /** A literal of the conflict level in the antecedent is open after analysing it. */
  lemma LevelIsOpen(f: set<Clause>, a: Assignment, level: int, reason: seq<int>, uip: int, i: int, seen: set<int>)
    requires Antecedent(f, a, level, reason, uip, i) && level > 0
    requires forall o :: o in reason && o != uip ==> Analyzed(a, seen, o)
    ensures HasLevel(a, level, reason, uip) ==> |OpenSet(a, level, seen, i)| > 0
  {
    if HasLevel(a, level, reason, uip) {
      var o :| o in reason && o != uip && -o in a.info && a.info[-o].level == level;
      assert Analyzed(a, seen, o) && FalseBefore(a, o, i);
      assert -o in OpenSet(a, level, seen, i);
    }
  }

  /** Taking the last open literal out of the resolvent. */
  lemma SplitUip(f: set<Clause>, a: Assignment, level: int, seen: set<int>, clause: seq<int>, i: int, k: int, uip: int)
    requires uip in OpenSet(a, level, seen, i) && uip != 0
    requires OpenSet(a, level, seen, k) == OpenSet(a, level, seen, i) - {uip}
    requires Covers(f, Resolvent(a, level, seen, clause, i), 0)
    ensures Covers(f, Resolvent(a, level, seen, clause, k), uip)
    ensures |OpenSet(a, level, seen, k)| == |OpenSet(a, level, seen, i)| - 1
  {
    hide OpenSet, Models;
    var x, y := Resolvent(a, level, seen, clause, i), Resolvent(a, level, seen, clause, k);
    forall l | l in x
      ensures l in y || l == -uip
    {
      if l !in Lits(clause) {
        var t :| t in OpenSet(a, level, seen, i) && l == -t;
        if t != uip {
          assert t in OpenSet(a, level, seen, k);
          assert -t in Negated(OpenSet(a, level, seen, k));
        }
      }
    }
    forall m | Models(m, f)
      ensures Satisfies(m, y) || Holds(m, -uip)
    {
      var l :| l in x && Holds(m, l);
    }
  }

  /** As long as another literal of the level is open, the current one is not the decision. */
  lemma HasReason(f: set<Clause>, a: Assignment, level: int, seen: set<int>, i: int, uip: int)
    requires TrailSound(f, a) && uip in a.info && a.info[uip].level == level > 0 && a.info[uip].pos == i
    requires |OpenSet(a, level, seen, i)| > 0
    ensures a.info[uip].reason != [] && Antecedent(f, a, level, a.info[uip].reason, uip, i)
  {
    hide ImpliedLiteral;
    var s := OpenSet(a, level, seen, i);
    var t := Member(s);
    assert !FirstOfLevel(a, uip);
    assert a.info[uip].reason != [];
    assert ReasonOk(f, a, uip);
  }

  lemma Finish(f: set<Clause>, a: Assignment, level: int, seen: set<int>, clause: seq<int>, i: int, uip: int)
    requires TrailSound(f, a) && SeenOk(a, level, seen, clause) && |OpenSet(a, level, seen, i)| == 0 && uip in a.info && a.info[uip].level == level > 0
    requires Covers(f, Resolvent(a, level, seen, clause, i), uip)
    ensures Learned(f, a, level, clause + [-uip], uip)
  {
    hide Models, OpenSet, ReasonOk, FirstOfLevel, ImpliedLiteral;
    var c := clause + [-uip];
    LitsAdd(clause, -uip);
    assert Resolvent(a, level, seen, clause, i) == Lits(clause);
    forall m | Models(m, f)
      ensures Satisfies(m, Lits(c))
    {
      if Satisfies(m, Lits(clause)) {
        var l :| l in Lits(clause) && Holds(m, l);
        assert l in Lits(c);
      } else {
        assert -uip in Lits(c);
      }
    }
    assert -uip !in clause;
  }
}
