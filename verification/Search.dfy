/** The search state of the SAT solver: decisions, assignments forced by clauses, backtracking that
    may keep out-of-order literals, and learning.  Every step keeps the trail sound and every clause
    implied by the original formula. */
module Search {
  import opened Cnf
  import opened Extension
  import opened Trail
  import opened Analyze
  import opened Minimize
  import FailedAssumptions

  ghost predicate Entails(f: set<Clause>, g: set<Clause>) {
    forall m :: Models(m, f) ==> Models(m, g)
  }

  /** Literals of level `n` lie at or after the trail height at which that level was opened. */
  ghost predicate ControlOk(a: Assignment, level: int, control: seq<int>) {
    && level >= 0 && |control| == level + 1
    && (forall i, j :: 0 <= i <= j <= level ==> control[i] <= control[j])
    && (forall i :: 0 <= i <= level ==> 0 <= control[i] <= |a.trail|)
    && (forall t :: t in a.info ==> 0 <= a.info[t].level <= level && (a.info[t].level > 0 ==> control[a.info[t].level] <= a.info[t].pos))
  }

  function Extended(a: Assignment, lit: int, lev: int, reason: seq<int>): Assignment {
    Assignment(a.trail + [lit], a.info[lit := Info(lev, reason, |a.trail|)])
  }

  predicate Unassigned(a: Assignment, lit: int) {
    lit != 0 && lit !in a.info && -lit !in a.info
  }

  /** A clause of the formula all of whose other literals are false. */
  ghost predicate UnitUnder(f: set<Clause>, a: Assignment, c: seq<int>, lit: int) {
    Lits(c) in f && lit in c && forall o :: o in c && o != lit ==> -o in a.info
  }

  ghost predicate FalseClause(f: set<Clause>, a: Assignment, c: seq<int>) {
    Lits(c) in f && forall o :: o in c ==> -o in a.info
  }

  /** Highest level of the false literals of `c` other than `lit`. */
  ghost predicate IsLevelOf(a: Assignment, c: seq<int>, lit: int, lev: int) {
    && lev >= 0
    && (forall o :: o in c && o != lit ==> -o in a.info && a.info[-o].level <= lev)
    && (lev == 0 || exists o :: o in c && o != lit && -o in a.info && a.info[-o].level == lev)
  }

  method AssignmentLevel(a: Assignment, c: seq<int>, lit: int) returns (lev: int)
    requires Literals(a) && forall o :: o in c && o != lit ==> -o in a.info
    ensures IsLevelOf(a, c, lit, lev)
  {
    lev := 0;
    var i := 0;
    while i < |c|
      invariant 0 <= i <= |c| && lev >= 0
      invariant forall k :: 0 <= k < i && c[k] != lit ==> -c[k] in a.info && a.info[-c[k]].level <= lev
      invariant lev == 0 || exists o :: o in c && o != lit && -o in a.info && a.info[-o].level == lev
    {
      if c[i] != lit {
        assert c[i] in c;
        var tmp := a.info[-c[i]].level;
        if tmp > lev {
          lev := tmp;
        }
      }
      i := i + 1;
    }
  }

  /** A forced literal extends a sound trail; on level 0 it is a consequence of the formula. */
  lemma ForcedSound(f: set<Clause>, a: Assignment, c: seq<int>, lit: int, lev: int)
    requires TrailSound(f, a) && Unassigned(a, lit) && UnitUnder(f, a, c, lit) && IsLevelOf(a, c, lit, lev)
    ensures TrailSound(f, Extended(a, lit, lev, if lev == 0 then [] else c))
  {
    hide ImpliedLiteral, FirstOfLevel, Models;
    var b := Extended(a, lit, lev, if lev == 0 then [] else c);
    if lev == 0 {
      RootForced(f, a, c, lit);
    }
    OldSound(f, a, b, lit);
    if lev != 0 {
      assert ReasonOk(f, b, lit);
    }
  }

  lemma RootForced(f: set<Clause>, a: Assignment, c: seq<int>, lit: int)
    requires TrailSound(f, a) && UnitUnder(f, a, c, lit) && IsLevelOf(a, c, lit, 0)
    ensures ImpliedLiteral(f, {}, lit)
  {
    hide FirstOfLevel, ReasonOk;
    forall m | Models(m, f)
      ensures Holds(m, lit)
    {
      var l :| l in Lits(c) && Holds(m, l);
      if l != lit {
        RootHolds(f, a, -l, m);
      }
    }
  }

  /** Extending the trail at its end changes nothing for the literals already there. */
  lemma OldSound(f: set<Clause>, a: Assignment, b: Assignment, lit: int)
    requires TrailSound(f, a) && Unassigned(a, lit) && lit in b.info && b == Extended(a, lit, b.info[lit].level, b.info[lit].reason) && b.info[lit].level >= 0
    ensures Positions(b) && Literals(b)
    ensures forall t :: t in a.info && a.info[t].reason != [] ==> ReasonOk(f, b, t)
    ensures forall t :: t in a.info && a.info[t].level == 0 ==> ImpliedLiteral(f, {}, t)
    ensures forall t :: t in a.info && a.info[t].reason == [] && a.info[t].level > 0 ==> FirstOfLevel(b, t)
  {
    hide ImpliedLiteral;
    forall t | t in a.info && a.info[t].reason != []
      ensures ReasonOk(f, b, t)
    {
      assert ReasonOk(f, a, t);
    }
    forall t | t in a.info && a.info[t].reason == [] && a.info[t].level > 0
      ensures FirstOfLevel(b, t)
    {
      assert FirstOfLevel(a, t);
    }
  }

  lemma DecisionSound(f: set<Clause>, a: Assignment, lit: int, lev: int)
    requires TrailSound(f, a) && Unassigned(a, lit) && lev > 0 && forall t :: t in a.info ==> a.info[t].level < lev
    ensures TrailSound(f, Extended(a, lit, lev, []))
  {
    hide ImpliedLiteral, ReasonOk;
    var b := Extended(a, lit, lev, []);
    OldSound(f, a, b, lit);
    assert FirstOfLevel(b, lit);
  }

  lemma SoundMore(f: set<Clause>, g: set<Clause>, a: Assignment)
    requires TrailSound(f, a) && f <= g
    ensures TrailSound(g, a)
  {
    forall t | t in a.info && a.info[t].level == 0
      ensures ImpliedLiteral(g, {}, t)
    {
      assert ImpliedLiteral(f, {}, t);
      assert forall m :: Models(m, g) ==> Models(m, f);
    }
    forall t | t in a.info && a.info[t].reason != []
      ensures ReasonOk(g, a, t)
    {
      assert ReasonOk(f, a, t);
    }
  }

  // ----- backtracking -----

  /** Progress of compacting the trail up to position `i`: literals above level `n` are gone, the
      others keep their order, level and reason. */
  ghost predicate Compacted(a: Assignment, n: int, kept: seq<int>, info: map<int, Info>, i: int) {
    && (forall t :: t in info <==> t in a.info && (a.info[t].pos >= i || a.info[t].level <= n))
    && (forall t :: t in info ==> info[t].level == a.info[t].level && info[t].reason == a.info[t].reason)
    && (forall t :: t in info && a.info[t].pos >= i ==> info[t].pos == a.info[t].pos)
    && (forall t :: t in info && a.info[t].pos < i ==> 0 <= info[t].pos < |kept| && kept[info[t].pos] == t)
    && (forall k :: 0 <= k < |kept| ==> kept[k] in info && kept[k] in a.info && a.info[kept[k]].pos < i && info[kept[k]].pos == k)
    && (forall k, h :: 0 <= k < h < |kept| ==> kept[k] in a.info && kept[h] in a.info && a.info[kept[k]].pos < a.info[kept[h]].pos)
  }

  lemma CompactStart(a: Assignment, n: int, i: int)
    requires Positions(a) && 0 <= i <= |a.trail| && forall t :: t in a.info && a.info[t].pos < i ==> a.info[t].level <= n
    ensures Compacted(a, n, a.trail[..i], a.info, i)
  {
  }

  lemma CompactDrop(a: Assignment, n: int, kept: seq<int>, info: map<int, Info>, i: int)
    requires Positions(a) && 0 <= i < |a.trail| && Compacted(a, n, kept, info, i) && a.info[a.trail[i]].level > n
    ensures Compacted(a, n, kept, info - {a.trail[i]}, i + 1)
  {
  }

  lemma CompactKeep(a: Assignment, n: int, kept: seq<int>, info: map<int, Info>, i: int)
    requires Positions(a) && 0 <= i < |a.trail| && Compacted(a, n, kept, info, i) && a.info[a.trail[i]].level <= n
    ensures a.trail[i] in info
    ensures Compacted(a, n, kept + [a.trail[i]], info[a.trail[i] := info[a.trail[i]].(pos := |kept|)], i + 1)
  {
    var t := a.trail[i];
    var kept', info' := kept + [t], info[t := info[t].(pos := |kept|)];
    assert forall x :: x in info && a.info[x].pos == i ==> x == t;
    forall k | 0 <= k < |kept'|
      ensures kept'[k] in info' && kept'[k] in a.info && a.info[kept'[k]].pos < i + 1 && info'[kept'[k]].pos == k
    {
      if k < |kept| {
        assert kept'[k] == kept[k] && a.info[kept[k]].pos < i;
      } else {
        assert kept'[k] == t;
      }
    }
  }

  /** Compacts the part of the trail that starts at `height`. */
  method Compact(a: Assignment, n: int, height: int) returns (b: Assignment)
    requires Positions(a) && 0 <= height <= |a.trail| && forall t :: t in a.info && a.info[t].pos < height ==> a.info[t].level <= n
    ensures Compacted(a, n, b.trail, b.info, |a.trail|) && a.trail[..height] <= b.trail
  {
    hide Compacted;
    var i, kept, info := height, a.trail[..height], a.info;
    CompactStart(a, n, i);
    while i < |a.trail|
      invariant height <= i <= |a.trail| && Compacted(a, n, kept, info, i) && a.trail[..height] <= kept
    {
      var lit := a.trail[i];
      if a.info[lit].level > n {
        CompactDrop(a, n, kept, info, i);
        info := info - {lit};
      } else {
        CompactKeep(a, n, kept, info, i);
        info := info[lit := info[lit].(pos := |kept|)];
        kept := kept + [lit];
      }
      i := i + 1;
    }
    b := Assignment(kept, info);
  }

  lemma CompactedMeans(a: Assignment, n: int, b: Assignment)
    requires Positions(a) && Compacted(a, n, b.trail, b.info, |a.trail|)
    ensures forall t :: t in b.info <==> t in a.info && a.info[t].level <= n
    ensures forall t :: t in b.info ==> b.info[t].level == a.info[t].level && b.info[t].reason == a.info[t].reason
  {
  }

  lemma KeptOrder(a: Assignment, n: int, b: Assignment, x: int, y: int)
    requires Compacted(a, n, b.trail, b.info, |a.trail|) && Positions(a) && x in b.info && y in b.info
    ensures b.info[x].pos < b.info[y].pos <==> a.info[x].pos < a.info[y].pos
  {
    var p, q := b.info[x].pos, b.info[y].pos;
    assert b.trail[p] == x && b.trail[q] == y;
  }

  /** Removing all literals above a level leaves a sound trail. */
  lemma CompactSound(f: set<Clause>, a: Assignment, n: int, b: Assignment)
    requires TrailSound(f, a) && n >= 0 && Compacted(a, n, b.trail, b.info, |a.trail|)
    ensures TrailSound(f, b)
  {
    hide ImpliedLiteral, Models;
    forall t | t in b.info && b.info[t].reason != []
      ensures ReasonOk(f, b, t)
    {
      assert ReasonOk(f, a, t);
      forall o | o in b.info[t].reason && o != t
        ensures FalseBefore(b, o, b.info[t].pos) && b.info[-o].level <= b.info[t].level
      {
        assert FalseBefore(a, o, a.info[t].pos);
        KeptOrder(a, n, b, -o, t);
      }
    }
    forall t | t in b.info && b.info[t].reason == [] && b.info[t].level > 0
      ensures FirstOfLevel(b, t)
    {
      assert FirstOfLevel(a, t);
      forall o | o in b.info && b.info[o].pos < b.info[t].pos
        ensures b.info[o].level != b.info[t].level
      {
        KeptOrder(a, n, b, o, t);
      }
    }
  }

  // ----- conflicts -----

  /** Level of the variable of a false literal. */
  function LevelAt(a: Assignment, l: int): int {
    if -l in a.info then a.info[-l].level else -1
  }

  /** At least two literals of the clause have this level. */
  ghost predicate TwoAt(a: Assignment, c: seq<int>, lev: int) {
    exists i, j :: 0 <= i < j < |c| && LevelAt(a, c[i]) == lev && LevelAt(a, c[j]) == lev
  }

  /** Highest level in a false clause, and its only literal of that level exactly if there is just one. */
  method ConflictLevel(a: Assignment, level: int, c: seq<int>) returns (lev: int, forced: int)
    requires Literals(a) && forall o :: o in c ==> -o in a.info && LevelAt(a, o) <= level
    ensures IsConflictLevel(a, c, lev)
    ensures forced != 0 ==> lev > 0 && forced in c && LevelAt(a, forced) == lev && forall o :: o in c && o != forced ==> LevelAt(a, o) < lev
    ensures forced != 0 ==> !TwoAt(a, c, lev)
    ensures forced == 0 ==> lev == 0 || TwoAt(a, c, lev)
  {
    var candidate, count;
    lev, candidate, count := 0, 0, 0;
    ghost var first := 0;
    var i := 0;
    while i < |c|
      invariant 0 <= i <= |c| && lev >= 0 && (candidate == 0 <==> lev == 0) && (candidate != 0 ==> count >= 1)
      invariant forall k :: 0 <= k < i ==> LevelAt(a, c[k]) <= lev
      invariant candidate != 0 ==> 0 <= first < i && c[first] == candidate && LevelAt(a, candidate) == lev
      invariant candidate != 0 && count == 1 ==> forall k :: 0 <= k < i && k != first ==> LevelAt(a, c[k]) < lev
      invariant candidate != 0 && count > 1 ==> TwoAt(a, c, lev)
    {
      assert c[i] in c && (-c[i] in a.info ==> c[i] != 0);
      var tmp := LevelAt(a, c[i]);
      if tmp > lev {
        lev, candidate, count, first := tmp, c[i], 1, i;
      } else if tmp == lev {
        count := count + 1;
        if lev == level && count > 1 {
          break;
        }
      }
      i := i + 1;
    }
    forced := if count == 1 then candidate else 0;
  }

  /** A clause false at the root refutes the formula. */
  lemma RootConflict(f: set<Clause>, a: Assignment, c: seq<int>, m: set<int>)
    requires TrailSound(f, a) && FalseClause(f, a, c) && forall o :: o in c ==> a.info[-o].level == 0
    ensures !Models(m, f)
  {
    hide ReasonOk, FirstOfLevel, ImpliedLiteral;
    if Models(m, f) {
      var l :| l in Lits(c) && Holds(m, l);
      RootHolds(f, a, -l, m);
    }
  }

  class Cdcl {
    ghost const original: set<Clause>
    var clauses: set<Clause>
    var a: Assignment
    var level: int
    var control: seq<int>
    var unsat: bool

    ghost predicate Valid()
      reads this
    {
      && TrailSound(clauses, a) && ControlOk(a, level, control)
      && original <= clauses && Entails(original, clauses)
      && (unsat ==> forall m :: !Models(m, original))
    }

    constructor (f: set<Clause>)
      ensures Valid() && original == f && clauses == f && a.trail == [] && level == 0 && !unsat
    {
      original, clauses := f, f;
      a, level, control, unsat := Assignment([], map[]), 0, [0], false;
    }

    /** Opens a level with a decision. */
    method Decide(lit: int)
      requires Valid() && Unassigned(a, lit)
      modifies this`a, this`level, this`control
      ensures Valid() && level == old(level) + 1 && a == Extended(old(a), lit, level, [])
    {
      hide TrailSound, Entails, Models;
      level := level + 1;
      control := control + [|a.trail|];
      DecisionSound(clauses, a, lit, level);
      a := Extended(a, lit, level, []);
    }

    /** Assigns a literal forced by a clause, on the highest level of the other literals. */
    method Assign(lit: int, reason: seq<int>)
      requires Valid() && Unassigned(a, lit) && UnitUnder(clauses, a, reason, lit)
      modifies this`a
      ensures Valid() && lit in a.info && IsLevelOf(old(a), reason, lit, a.info[lit].level) && a.info[lit].level <= level
      ensures a == Extended(old(a), lit, a.info[lit].level, if a.info[lit].level == 0 then [] else reason)
    {
      hide Entails, Models, ReasonOk, FirstOfLevel, ImpliedLiteral;
      var lev := AssignmentLevel(a, reason, lit);
      ForcedSound(clauses, a, reason, lit, lev);
      ForcedControl(clauses, a, level, control, reason, lit, lev);
      a := Extended(a, lit, lev, if lev == 0 then [] else reason);
    }

    /** Unassigns everything above level `n`; lower literals stay even if assigned later. */
    method Backtrack(n: int)
      requires Valid() && 0 <= n <= level
      modifies this`a, this`level, this`control
      ensures Valid() && level == n && Cut(old(a), a, n)
      ensures forall t :: t in a.info <==> t in old(a).info && old(a).info[t].level <= n
      ensures forall t :: t in a.info ==> a.info[t].level == old(a).info[t].level && a.info[t].reason == old(a).info[t].reason
    {
      hide Entails, ReasonOk, FirstOfLevel, ImpliedLiteral, Models, Compacted;
      if n < level {
        LowerPart(a, level, control, n);
        var b := Compact(a, n, control[n + 1]);
        CompactSound(clauses, a, n, b);
        CompactControl(a, level, control, n, b);
        CompactedMeans(a, n, b);
        a := b;
        control := control[..n + 1];
        level := n;
      }
    }

    /** Learns from a false clause: assigns its single literal of the highest level, or derives and
        minimises the first-UIP clause, backtracks to a level `choice` allowed by it and assigns the
        flipped literal.  A conflict at the root refutes the original formula.  `lev` is the conflict level
        and `at` the assignment on which the clause was derived. */
    method AnalyzeConflict(conflict: seq<int>, choice: int, depthLimit: int, count: map<int, int>, earliest: map<int, int>)
      returns (driving: seq<int>, lit: int, ghost lev: int, ghost at: Assignment)
      requires Valid() && !unsat && FalseClause(clauses, a, conflict)
      modifies this`clauses, this`a, this`level, this`control, this`unsat
      ensures Valid() && IsConflictLevel(old(a), conflict, lev) && (unsat <==> lev == 0)
      ensures unsat ==> clauses == old(clauses)
      ensures !unsat ==> clauses == old(clauses) + {Lits(driving)} && -lit in old(a).info && level < old(level)
      ensures !unsat ==> Driven(old(a), a, level, driving, lit)
      ensures !unsat && !TwoAt(old(a), conflict, lev) ==> driving == conflict && level == lev - 1 && lit in conflict && LevelAt(old(a), lit) == lev
      ensures !unsat && TwoAt(old(a), conflict, lev) ==>
                Cut(old(a), at, lev) && LearnedFrom(at, lev, depthLimit, count, earliest, conflict, driving, -lit) && JumpsTo(at, lev, driving, -lit, choice, level)
    {
      hide Entails, TrailSound, ControlOk, Models, Learned, IsLevelOf, LearnedFrom, JumpsTo, TwoAt, Driven, Cut;
      driving, lit, at := conflict, 0, a;
      SoundLiterals(clauses, a);
      LevelsBelow(clauses, a, level, control, conflict);
      var highest, forced := ConflictLevel(a, level, conflict);
      lev := highest;
      LevelBound(a, level, control, conflict, lev);
      ghost var was := a;
      if forced != 0 {
        Backtrack(highest - 1);
        StillUnit(clauses, was, a, lev - 1, conflict, forced);
        ghost var b := a;
        Assign(forced, conflict);
        DrivenBy(was, b, a, level, conflict, forced);
        lit := forced;
        assert clauses == clauses + {Lits(conflict)};
        return;
      }
      Backtrack(highest);
      StillFalse(clauses, was, a, lev, conflict);
      if highest == 0 {
        RootRefutes(original, clauses, a, conflict);
        unsat := true;
        return;
      }
      at := a;
      CutHere(was, a, lev);
      driving, lit := Learn(conflict, choice, depthLimit, count, earliest);
      DrivenSince(was, at, a, lev, level, driving, lit);
    }

    /** Derives the clause from a conflict on the current level, learns it, and assigns the flipped
        literal on a lower level. */
    method Learn(conflict: seq<int>, choice: int, depthLimit: int, count: map<int, int>, earliest: map<int, int>) returns (driving: seq<int>, lit: int)
      requires Valid() && !unsat && Conflict(clauses, a, level, conflict)
      modifies this`clauses, this`a, this`level, this`control
      ensures Valid() && lit in driving && -lit in old(a).info && Driven(old(a), a, level, driving, lit)
      ensures level < old(level) && clauses == old(clauses) + {Lits(driving)}
      ensures LearnedFrom(old(a), old(level), depthLimit, count, earliest, conflict, driving, -lit)
      ensures JumpsTo(old(a), old(level), driving, -lit, choice, level)
    {
      hide Entails, TrailSound, ControlOk, Models, Learned, IsLevelOf, LearnedFrom, Driven;
      ghost var lev := level;
      var uip;
      driving, uip := Derive(conflict, depthLimit, count, earliest);
      lit := -uip;
      var jump := JumpLevel(driving, uip);
      var target := if jump <= choice < level then choice else jump;
      ghost var here := a;
      AddImplied(original, clauses, a, level, driving, uip);
      ghost var before := clauses;
      clauses := clauses + {Lits(driving)};
      Backtrack(target);
      DrivingUnit(before, clauses, here, a, lev, target, driving, uip);
      assert -lit == uip;
      ghost var b := a;
      Assign(lit, driving);
      DrivenBy(here, b, a, level, driving, lit);
      assert IsJump(here, driving, uip, jump);
    }

    /** The minimised first-UIP clause of a conflict on the current level. */
    method Derive(conflict: seq<int>, depthLimit: int, count: map<int, int>, earliest: map<int, int>) returns (learned: seq<int>, uip: int)
      requires Valid() && Conflict(clauses, a, level, conflict)
      ensures Learned(clauses, a, level, learned, uip)
      ensures LearnedFrom(a, level, depthLimit, count, earliest, conflict, learned, uip)
    {
      hide Entails, TrailSound, ControlOk, Models, Learned, IsFirstUip, UipClause, Minimal;
      var an := new Analyzer(a, level, clauses);
      uip := an.FirstUip(conflict);
      var mi := new Minimizer(a, level, depthLimit, count, earliest, clauses);
      learned := an.clause;
      LearnedSize(clauses, a, level, learned, uip);
      if |learned| > 1 {
        learned := mi.MinimizeClause(an.clause, uip);
      }
    }

    /** When all decisions are assumptions and one is false, the failed assumptions are a core of the
        original formula, as callers of the incremental interface expect. */
    method FailedCore(assumptions: seq<int>) returns (failed: set<int>)
      requires Valid() && FailedAssumptions.DecisionsAssumed(a, assumptions) && 0 !in assumptions
      requires exists l :: l in assumptions && -l in a.info
      ensures Correct(original, Lits(assumptions), Unsat(failed))
      ensures exists r :: FailedAssumptions.IsFirstFailure(a, assumptions, r) && failed == FailedAssumptions.FailedSet(a, r)
    {
      hide TrailSound, ControlOk, Models, FailedAssumptions.FailedSet, FailedAssumptions.IsFirstFailure;
      var clause;
      failed, clause := FailedAssumptions.Failing(clauses, a, assumptions);
    }

    /** The highest level of the learned clause below the conflict level. */
    method JumpLevel(c: seq<int>, uip: int) returns (jump: int)
      requires Valid() && Learned(clauses, a, level, c, uip) && level > 0
      ensures jump < level && IsJump(a, c, uip, jump)
    {
      hide Entails, Models, ReasonOk, FirstOfLevel, ImpliedLiteral, Covers;
      jump := 0;
      var i := 0;
      while i < |c|
        invariant 0 <= i <= |c| && 0 <= jump < level
        invariant forall k :: 0 <= k < i && c[k] != -uip ==> LevelAt(a, c[k]) <= jump
        invariant jump == 0 || exists l :: l in c && l != -uip && LevelAt(a, l) == jump
      {
        assert c[i] in c;
        if c[i] != -uip && LevelAt(a, c[i]) > jump {
          jump := LevelAt(a, c[i]);
        }
        i := i + 1;
      }
    }
  }

  // ----- what an analysis does -----

  ghost predicate IsConflictLevel(a: Assignment, c: seq<int>, lev: int) {
    && lev >= 0 && (forall o :: o in c ==> LevelAt(a, o) <= lev)
    && (lev > 0 ==> exists o :: o in c && LevelAt(a, o) == lev)
  }

  /** The highest level of the other literals, or the root. */
  ghost predicate IsJump(a: Assignment, c: seq<int>, uip: int, jump: int) {
    && jump >= 0 && (forall l :: l in c && l != -uip ==> LevelAt(a, l) <= jump)
    && (jump == 0 || exists l :: l in c && l != -uip && LevelAt(a, l) == jump)
  }

  /** Backtracking goes to the chosen level if the clause is unit there, else to the jump level. */
  ghost predicate JumpsTo(a: Assignment, level: int, c: seq<int>, uip: int, choice: int, target: int) {
    exists jump :: IsJump(a, c, uip, jump) && target == if jump <= choice < level then choice else jump
  }

  /** The literals of levels up to `n`, with their levels and reasons. */
  ghost predicate Cut(a: Assignment, b: Assignment, n: int) {
    && (forall t :: t in b.info <==> t in a.info && a.info[t].level <= n)
    && (forall t :: t in b.info ==> b.info[t].level == a.info[t].level && b.info[t].reason == a.info[t].reason)
  }

  /** After backtracking to `level` the clause has assigned its literal, on the highest level of the
      others. */
  ghost predicate Driven(a: Assignment, b: Assignment, level: int, c: seq<int>, lit: int) {
    && lit in c && lit in b.info && b.info[lit].level <= level && b.info[lit].reason == (if b.info[lit].level == 0 then [] else c)
    && (forall t :: t in b.info <==> t == lit || (t in a.info && a.info[t].level <= level))
    && (forall t :: t in b.info && t != lit ==> b.info[t].level == a.info[t].level && b.info[t].reason == a.info[t].reason)
    && IsLevelOf(b, c, lit, b.info[lit].level)
  }

  /** The first-UIP clause of the conflict, minimised. */
  ghost predicate LearnedFrom(a: Assignment, level: int, limit: int, count: map<int, int>, earliest: map<int, int>, conflict: seq<int>, c: seq<int>, uip: int) {
    && IsFirstUip(a, level, conflict, uip) && Lits(c) <= UipClause(a, level, conflict, uip)
    && (|UipClause(a, level, conflict, uip)| > 1 ==> Minimal(a, level, limit, count, earliest, c))
    && (|UipClause(a, level, conflict, uip)| == 1 ==> Lits(c) == UipClause(a, level, conflict, uip))
  }

  lemma LearnedSize(f: set<Clause>, a: Assignment, level: int, c: seq<int>, uip: int)
    requires Learned(f, a, level, c, uip)
    ensures |Lits(c)| == |c| > 0
  {
    LitsSize(c);
  }

  lemma CutHere(a: Assignment, b: Assignment, n: int)
    requires forall t :: t in b.info <==> t in a.info && a.info[t].level <= n
    requires forall t :: t in b.info ==> b.info[t].level == a.info[t].level && b.info[t].reason == a.info[t].reason
    ensures Cut(a, b, n)
  {
  }

  lemma DrivenBy(a: Assignment, b: Assignment, d: Assignment, level: int, c: seq<int>, lit: int)
    requires lit in c && lit in d.info && Unassigned(b, lit) && IsLevelOf(b, c, lit, d.info[lit].level) && Cut(a, b, level) && d.info[lit].level <= level
    requires d == Extended(b, lit, d.info[lit].level, if d.info[lit].level == 0 then [] else c)
    ensures Driven(a, d, level, c, lit)
  {
  }

  lemma DrivenSince(was: Assignment, at: Assignment, d: Assignment, lev: int, level: int, c: seq<int>, lit: int)
    requires Cut(was, at, lev) && Driven(at, d, level, c, lit) && level <= lev
    ensures Driven(was, d, level, c, lit)
  {
    hide IsLevelOf;
  }

  lemma ForcedControl(f: set<Clause>, a: Assignment, level: int, control: seq<int>, c: seq<int>, lit: int, lev: int)
    requires ControlOk(a, level, control) && Unassigned(a, lit) && IsLevelOf(a, c, lit, lev)
    ensures lev <= level && ControlOk(Extended(a, lit, lev, if lev == 0 then [] else c), level, control)
  {
  }

  lemma LowerPart(a: Assignment, level: int, control: seq<int>, n: int)
    requires ControlOk(a, level, control) && 0 <= n < level
    ensures forall t :: t in a.info && a.info[t].pos < control[n + 1] ==> a.info[t].level <= n
  {
    forall t | t in a.info && a.info[t].pos < control[n + 1]
      ensures a.info[t].level <= n
    {
    }
  }

  lemma CompactControl(a: Assignment, level: int, control: seq<int>, n: int, b: Assignment)
    requires Positions(a) && ControlOk(a, level, control) && 0 <= n < level && Compacted(a, n, b.trail, b.info, |a.trail|)
    requires a.trail[..control[n + 1]] <= b.trail
    ensures ControlOk(b, n, control[..n + 1])
  {
    forall t | t in b.info && b.info[t].level > 0
      ensures control[b.info[t].level] <= b.info[t].pos
    {
      var h, p := control[n + 1], b.info[t].pos;
      assert control[b.info[t].level] <= h;
      if p < h {
        assert a.trail[..h][p] == b.trail[p];
      }
    }
  }

  lemma SoundLiterals(f: set<Clause>, a: Assignment)
    requires TrailSound(f, a)
    ensures Literals(a)
  {
  }

  lemma LevelsBelow(f: set<Clause>, a: Assignment, level: int, control: seq<int>, c: seq<int>)
    requires ControlOk(a, level, control) && FalseClause(f, a, c)
    ensures forall o :: o in c ==> -o in a.info && LevelAt(a, o) <= level
  {
  }

  lemma LevelBound(a: Assignment, level: int, control: seq<int>, c: seq<int>, lev: int)
    requires ControlOk(a, level, control) && lev >= 0 && (lev > 0 ==> exists o :: o in c && LevelAt(a, o) == lev)
    ensures lev <= level
  {
  }

  /** What backtracking to level `n` keeps. */
  ghost predicate Shrunk(a: Assignment, b: Assignment, n: int) {
    && (forall t :: t in b.info <==> t in a.info && a.info[t].level <= n)
    && (forall t :: t in b.info ==> b.info[t].level == a.info[t].level)
  }

  lemma StillUnit(f: set<Clause>, a: Assignment, b: Assignment, n: int, c: seq<int>, lit: int)
    requires TrailSound(f, a) && FalseClause(f, a, c) && Shrunk(a, b, n) && lit in c && LevelAt(a, lit) == n + 1
    requires forall o :: o in c && o != lit ==> LevelAt(a, o) < n + 1
    ensures Unassigned(b, lit) && UnitUnder(f, b, c, lit)
  {
    hide ReasonOk, FirstOfLevel, ImpliedLiteral;
    assert -(-lit) == lit;
  }

  lemma StillFalse(f: set<Clause>, a: Assignment, b: Assignment, lev: int, c: seq<int>)
    requires FalseClause(f, a, c) && Shrunk(a, b, lev) && forall o :: o in c ==> LevelAt(a, o) <= lev
    ensures FalseClause(f, b, c) && forall o :: o in c ==> LevelAt(b, o) == LevelAt(a, o)
  {
  }

  lemma RootRefutes(original: set<Clause>, f: set<Clause>, a: Assignment, c: seq<int>)
    requires TrailSound(f, a) && Entails(original, f) && FalseClause(f, a, c) && forall o :: o in c ==> LevelAt(a, o) <= 0
    ensures forall m :: !Models(m, original)
  {
    hide Models, ReasonOk, FirstOfLevel, ImpliedLiteral;
    forall m
      ensures !Models(m, original)
    {
      RootConflict(f, a, c, m);
    }
  }

  lemma AddImplied(original: set<Clause>, f: set<Clause>, a: Assignment, level: int, c: seq<int>, uip: int)
    requires Entails(original, f) && Learned(f, a, level, c, uip) && TrailSound(f, a)
    ensures Entails(original, f + {Lits(c)}) && TrailSound(f + {Lits(c)}, a)
  {
    hide TrailSound;
    SoundMore(f, f + {Lits(c)}, a);
  }

  /** After backtracking below the conflict level the learned clause forces the flipped UIP. */
  lemma DrivingUnit(f0: set<Clause>, f: set<Clause>, a: Assignment, b: Assignment, level: int, n: int, c: seq<int>, uip: int)
    requires TrailSound(f0, a) && Learned(f0, a, level, c, uip) && Shrunk(a, b, n) && n < level && Lits(c) in f
    requires forall l :: l in c && l != -uip ==> LevelAt(a, l) <= n
    ensures Unassigned(b, -uip) && UnitUnder(f, b, c, -uip) && -uip in c && uip in a.info
  {
    hide ReasonOk, FirstOfLevel, ImpliedLiteral, Covers;
    assert -(-uip) == uip;
  }
}
