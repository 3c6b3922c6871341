/** Which assumptions failed: the analysis that walks back from a false assumption to decisions. */
module FailedAssumptions {
  import opened Cnf
  import opened Extension
  import opened Trail

  /** Every decision is an assumption. */
  ghost predicate DecisionsAssumed(a: Assignment, assumptions: seq<int>) {
    forall t :: t in a.info && a.info[t].reason == [] && a.info[t].level > 0 ==> t in assumptions
  }

  ghost predicate Explained(a: Assignment, closed: set<int>, decs: set<int>, t: int)
    requires t in a.info
  {
    var v := a.info[t];
    v.level == 0 || (if v.reason == [] then t in decs else forall o :: o in v.reason && o != t ==> -o in closed)
  }

  /** A set of true literals closed under reasons, down to the decisions `decs`. */
  ghost predicate Closed(a: Assignment, closed: set<int>, decs: set<int>) {
    forall t :: t in closed ==> t in a.info && Explained(a, closed, decs, t)
  }

  /** Along the trail everything in a closed set follows from the formula and its decisions. */
  lemma {:induction false} ClosedHolds(f: set<Clause>, a: Assignment, closed: set<int>, decs: set<int>, t: int, m: set<int>)
    requires TrailSound(f, a) && Closed(a, closed, decs) && t in closed && Models(m, f) && AllHold(m, decs)
    ensures Holds(m, t)
    decreases a.info[t].pos
  {
    hide Models, ImpliedLiteral, FirstOfLevel;
    assert Explained(a, closed, decs, t);
    var v := a.info[t];
    if v.level == 0 {
      RootHolds(f, a, t, m);
    } else if v.reason != [] {
      assert ReasonOk(f, a, t);
      forall o | o in v.reason && o != t
        ensures Holds(m, -o)
      {
        assert FalseBefore(a, o, v.pos);
        ClosedHolds(f, a, closed, decs, -o, m);
      }
      ReasonForces(f, a, t, m);
    }
  }

  // ----- what the failed assumptions are -----

  /** The true literal `s` is the negation of another literal of the reason of `t`. */
  ghost predicate Supports(a: Assignment, t: int, s: int) {
    t in a.info && a.info[t].level != 0 && -s in a.info[t].reason && -s != t
  }

  ghost predicate IsPath(a: Assignment, p: seq<int>) {
    p != [] && forall i :: 0 <= i < |p| - 1 ==> Supports(a, p[i], p[i + 1])
  }

  /** Walking back through reasons from `start` leads to `t`. */
  ghost predicate LeadsTo(a: Assignment, start: set<int>, t: int) {
    exists p :: IsPath(a, p) && p[0] in start && p[|p| - 1] == t
  }

  ghost predicate IsDecision(a: Assignment, t: int) {
    t in a.info && a.info[t].level != 0 && a.info[t].reason == []
  }

  /** The decisions to which `start` leads. */
  ghost function DecisionsBehind(a: Assignment, start: set<int>): set<int> {
    set t | t in a.info && IsDecision(a, t) && LeadsTo(a, start, t)
  }

  lemma StartLeads(a: Assignment, start: set<int>, t: int)
    requires t in start
    ensures LeadsTo(a, start, t)
  {
    var p := [t];
    assert IsPath(a, p) && p[0] in start && p[|p| - 1] == t;
  }

  lemma StepLeads(a: Assignment, start: set<int>, t: int, s: int)
    requires LeadsTo(a, start, t) && Supports(a, t, s)
    ensures LeadsTo(a, start, s)
  {
    hide Supports;
    var p :| IsPath(a, p) && p[0] in start && p[|p| - 1] == t;
    var q := p + [s];
    forall i | 0 <= i < |q| - 1
      ensures Supports(a, q[i], q[i + 1])
    {
      if i < |p| - 1 {
        assert q[i] == p[i] && q[i + 1] == p[i + 1];
      }
    }
    assert q[0] == p[0] && q[|q| - 1] == s;
  }

  /** A closed set holds everything its members lead to. */
  lemma {:induction false} ClosedLeads(a: Assignment, closed: set<int>, decs: set<int>, p: seq<int>)
    requires Closed(a, closed, decs) && IsPath(a, p) && p[0] in closed
    ensures p[|p| - 1] in closed
  {
    if |p| > 1 {
      assert Supports(a, p[0], p[1]);
      assert Explained(a, closed, decs, p[0]);
      assert -(-p[1]) == p[1];
      var q := p[1..];
      forall i | 0 <= i < |q| - 1
        ensures Supports(a, q[i], q[i + 1])
      {
        assert Supports(a, p[i + 1], p[i + 2]);
      }
      ClosedLeads(a, closed, decs, q);
    }
  }

  lemma ExactDecisions(a: Assignment, start: set<int>, seen: set<int>, decs: set<int>)
    requires Closed(a, seen, decs) && start <= seen && (forall t :: t in seen ==> LeadsTo(a, start, t))
    requires forall t :: t in decs ==> t in seen && IsDecision(a, t)
    ensures decs == DecisionsBehind(a, start)
  {
    forall t
      ensures t in decs <==> t in DecisionsBehind(a, start)
    {
      if t in DecisionsBehind(a, start) {
        var p :| IsPath(a, p) && p[0] in start && p[|p| - 1] == t;
        ClosedLeads(a, seen, decs, p);
        assert Explained(a, seen, decs, t);
      }
    }
  }

  /** Reached so far: distinct true literals, of which the first `next` have been expanded. */
  ghost predicate Reached(a: Assignment, analyzed: seq<int>, seen: set<int>, decs: set<int>, next: int) {
    && 0 <= next <= |analyzed| && seen == Lits(analyzed) && NoDuplicates(analyzed)
    && (forall t :: t in seen ==> t in a.info)
    && (forall k :: 0 <= k < next ==> Explained(a, seen, decs, analyzed[k]))
  }

  lemma ReachedClosed(a: Assignment, analyzed: seq<int>, seen: set<int>, decs: set<int>)
    requires Reached(a, analyzed, seen, decs, |analyzed|)
    ensures Closed(a, seen, decs)
  {
    hide Explained;
    forall t | t in seen
      ensures Explained(a, seen, decs, t)
    {
      var k :| 0 <= k < |analyzed| && analyzed[k] == t;
    }
  }

  lemma ReachedMore(a: Assignment, analyzed: seq<int>, seen: set<int>, decs: set<int>, next: int, t: int)
    requires Reached(a, analyzed, seen, decs, next) && t !in seen && t in a.info
    ensures Reached(a, analyzed + [t], seen + {t}, decs, next)
  {
    forall k | 0 <= k < next
      ensures Explained(a, seen + {t}, decs, (analyzed + [t])[k])
    {
      assert Explained(a, seen, decs, analyzed[k]);
    }
    assert Lits(analyzed + [t]) == Lits(analyzed) + {t};
  }

  lemma ReachedSize(f: set<Clause>, a: Assignment, analyzed: seq<int>, seen: set<int>, decs: set<int>, next: int)
    requires TrailSound(f, a) && Reached(a, analyzed, seen, decs, next)
    ensures |analyzed| <= |a.info.Keys|
  {
    LitsSize(analyzed);
    forall t | t in seen
      ensures t in a.info.Keys
    {
    }
    SubsetSize(seen, a.info.Keys);
  }

  lemma SubsetSize(x: set<int>, y: set<int>)
    requires x <= y
    ensures |x| <= |y|
  {
    assert y == x + (y - x);
  }

  /** Adds the negations of the other literals of a reason that have not been seen. */
  method AnalyzeReason(a: Assignment, reason: seq<int>, lit: int, analyzed0: seq<int>, seen0: set<int>, ghost decs: set<int>, ghost next: int, ghost start: set<int>)
    returns (analyzed: seq<int>, seen: set<int>)
    requires Literals(a) && Reached(a, analyzed0, seen0, decs, next) && lit in seen0
    requires forall o :: o in reason && o != lit ==> -o in a.info
    requires lit in a.info && a.info[lit].level != 0 && a.info[lit].reason == reason && forall t :: t in seen0 ==> LeadsTo(a, start, t)
    ensures Reached(a, analyzed, seen, decs, next) && analyzed0 <= analyzed && seen0 <= seen
    ensures forall o :: o in reason && o != lit ==> -o in seen
    ensures forall t :: t in seen ==> LeadsTo(a, start, t)
  {
    hide Explained, LeadsTo;
    analyzed, seen := analyzed0, seen0;
    var i := 0;
    while i < |reason|
      invariant 0 <= i <= |reason| && Reached(a, analyzed, seen, decs, next) && analyzed0 <= analyzed && seen0 <= seen
      invariant forall k :: 0 <= k < i && reason[k] != lit ==> -reason[k] in seen
      invariant forall t :: t in seen ==> LeadsTo(a, start, t)
    {
      var other := reason[i];
      if other in seen || -other in seen {
        SeenIsFalse(a, reason, lit, seen, other);
      } else {
        assert -(-other) == other;
        StepLeads(a, start, lit, -other);
        ReachedMore(a, analyzed, seen, decs, next, -other);
        analyzed := analyzed + [-other];
        seen := seen + {-other};
      }
      i := i + 1;
    }
  }

  /** The seen flag belongs to the variable; only the true literal can have caused it. */
  lemma SeenIsFalse(a: Assignment, reason: seq<int>, lit: int, seen: set<int>, other: int)
    requires Literals(a) && other in reason && (other in seen || -other in seen) && (forall t :: t in seen ==> t in a.info)
    requires forall o :: o in reason && o != lit ==> -o in a.info
    ensures other != lit ==> -other in seen
  {
  }

  /** Breadth-first search through the implication graph from true literals down to decisions. */
  method CollectFailed(f: set<Clause>, a: Assignment, start: seq<int>, assumptions: seq<int>) returns (decs: set<int>, clause: seq<int>)
    requires TrailSound(f, a) && DecisionsAssumed(a, assumptions)
    requires NoDuplicates(start) && forall t :: t in start ==> t in a.info
    ensures decs == DecisionsBehind(a, Lits(start))
    ensures decs <= Lits(assumptions) && Lits(clause) == Negated(decs)
    ensures forall m :: Models(m, f) && AllHold(m, decs) ==> AllHold(m, Lits(start))
  {
    hide Explained, ReasonOk, FirstOfLevel, ImpliedLiteral, LeadsTo, DecisionsBehind;
    var analyzed, seen := start, Lits(start);
    decs, clause := {}, [];
    forall t | t in seen
      ensures LeadsTo(a, Lits(start), t)
    {
      StartLeads(a, Lits(start), t);
    }
    var next := 0;
    while next < |analyzed|
      invariant Reached(a, analyzed, seen, decs, next) && start <= analyzed
      invariant decs <= Lits(assumptions) && Lits(clause) == Negated(decs)
      invariant Lits(start) <= seen && (forall t :: t in seen ==> LeadsTo(a, Lits(start), t))
      invariant forall t :: t in decs ==> t in seen && IsDecision(a, t)
      decreases |a.info.Keys| - next
    {
      ReachedSize(f, a, analyzed, seen, decs, next);
      var lit := analyzed[next];
      assert lit in seen;
      var v := a.info[lit];
      ghost var before := seen;
      if v.level != 0 && v.reason != [] {
        ReasonLiterals(f, a, lit);
        analyzed, seen := AnalyzeReason(a, v.reason, lit, analyzed, seen, decs, next, Lits(start));
      } else if v.level != 0 {
        clause := clause + [-lit];
        NegatedMore(clause, decs, lit);
        MoreDecisions(a, analyzed, seen, decs, next, lit);
        decs := decs + {lit};
      }
      ExplainNext(a, analyzed, seen, decs, next);
      next := next + 1;
    }
    ReachedClosed(a, analyzed, seen, decs);
    ExactDecisions(a, Lits(start), seen, decs);
    forall m | Models(m, f) && AllHold(m, decs)
      ensures AllHold(m, Lits(start))
    {
      forall t | t in start
        ensures Holds(m, t)
      {
        StartSeen(start, analyzed, t);
        ClosedHolds(f, a, seen, decs, t, m);
      }
    }
  }

  lemma StartSeen(start: seq<int>, analyzed: seq<int>, t: int)
    requires start <= analyzed && t in start
    ensures t in Lits(analyzed)
  {
    var k :| 0 <= k < |start| && start[k] == t;
    assert analyzed[k] == t;
  }

  lemma NegatedMore(clause: seq<int>, decs: set<int>, lit: int)
    requires clause != [] && Lits(clause[..|clause| - 1]) == Negated(decs) && clause[|clause| - 1] == -lit
    ensures Lits(clause) == Negated(decs + {lit})
  {
    var rest := clause[..|clause| - 1];
    assert clause == rest + [-lit];
    LitsAdd(rest, -lit);
    assert Negated(decs + {lit}) == Negated(decs) + {-lit};
  }

  lemma MoreDecisions(a: Assignment, analyzed: seq<int>, seen: set<int>, decs: set<int>, next: int, lit: int)
    requires Reached(a, analyzed, seen, decs, next)
    ensures Reached(a, analyzed, seen, decs + {lit}, next)
  {
    forall k | 0 <= k < next
      ensures Explained(a, seen, decs + {lit}, analyzed[k])
    {
      assert Explained(a, seen, decs, analyzed[k]);
    }
  }

  lemma ExplainNext(a: Assignment, analyzed: seq<int>, seen: set<int>, decs: set<int>, next: int)
    requires Reached(a, analyzed, seen, decs, next) && next < |analyzed| && analyzed[next] in a.info
    requires var t := analyzed[next]; var v := a.info[t];
      v.level == 0 || (if v.reason == [] then t in decs else forall o :: o in v.reason && o != t ==> -o in seen)
    ensures Reached(a, analyzed, seen, decs, next + 1)
  {
    forall k | 0 <= k < next + 1
      ensures analyzed[k] in a.info && Explained(a, seen, decs, analyzed[k])
    {
      if k == next {
        assert Explained(a, seen, decs, analyzed[k]);
      }
    }
  }

  lemma ReasonLiterals(f: set<Clause>, a: Assignment, t: int)
    requires TrailSound(f, a) && t in a.info && a.info[t].reason != []
    ensures forall o :: o in a.info[t].reason && o != t ==> -o in a.info
  {
    assert ReasonOk(f, a, t);
  }

  /** The three cases of the search over the assumption stack. */
  datatype Failure = FailedUnit(l: int) | Clashing(l: int) | FirstFailed(l: int)

  ghost predicate IsFailure(a: Assignment, assumptions: seq<int>, r: Failure) {
    && r.l in assumptions && -r.l in a.info
    && match r
       case FailedUnit(l) => a.info[-l].level == 0
       case Clashing(l) => a.info[-l].level > 0 && a.info[-l].reason == []
       case FirstFailed(l) => a.info[-l].level > 0 && a.info[-l].reason != []
  }

  /** The order of the three cases: a root-level failure first, then a clash, then the lowest level. */
  ghost predicate IsFirstFailure(a: Assignment, assumptions: seq<int>, r: Failure) {
    && IsFailure(a, assumptions, r)
    && (!r.FailedUnit? ==> forall l :: l in assumptions && -l in a.info ==> a.info[-l].level > 0)
    && (r.FirstFailed? ==> forall l :: l in assumptions && -l in a.info ==> a.info[-l].reason != [] && a.info[-r.l].level <= a.info[-l].level)
  }

  /** The failed assumptions of each case: the false one alone, the clashing pair, or the false one and
      the decisions behind its negation. */
  ghost function FailedSet(a: Assignment, r: Failure): set<int> {
    match r
    case FailedUnit(l) => {l}
    case Clashing(l) => {l, -l}
    case FirstFailed(l) => {l} + DecisionsBehind(a, {-l})
  }

  /** A false assumption on the root level if there is one, else the negation of a decision, else one
      falsified on the lowest level. */
  method FindFailed(a: Assignment, assumptions: seq<int>) returns (r: Failure)
    requires Literals(a) && 0 !in assumptions && exists l :: l in assumptions && -l in a.info
    ensures IsFirstFailure(a, assumptions, r)
  {
    var clashing, first, level := 0, 0, 0;
    var i := 0;
    while i < |assumptions|
      invariant 0 <= i <= |assumptions| && Searched(a, assumptions, i, clashing, first, level)
    {
      var lit := assumptions[i];
      if -lit in a.info {
        var v := a.info[-lit];
        if v.level == 0 {
          return FailedUnit(lit);
        }
        if clashing == 0 {
          if v.reason == [] {
            clashing := lit;
          } else if first == 0 || v.level < level {
            first, level := lit, v.level;
          }
        }
      }
      i := i + 1;
    }
    r := if clashing != 0 then Clashing(clashing) else FirstFailed(first);
    SearchedAll(a, assumptions, clashing, first, level);
  }

  /** What is known after the first `n` assumptions. */
  ghost predicate Searched(a: Assignment, assumptions: seq<int>, n: int, clashing: int, first: int, level: int)
    requires 0 <= n <= |assumptions|
  {
    && (clashing != 0 ==> IsFailure(a, assumptions, Clashing(clashing)))
    && (first != 0 ==> IsFailure(a, assumptions, FirstFailed(first)) && level == a.info[-first].level)
    && (forall k :: 0 <= k < n && -assumptions[k] in a.info ==> a.info[-assumptions[k]].level > 0)
    && (clashing == 0 ==> forall k :: 0 <= k < n && -assumptions[k] in a.info ==>
          first != 0 && a.info[-assumptions[k]].reason != [] && level <= a.info[-assumptions[k]].level)
  }

  lemma SearchedAll(a: Assignment, assumptions: seq<int>, clashing: int, first: int, level: int)
    requires Searched(a, assumptions, |assumptions|, clashing, first, level) && exists l :: l in assumptions && -l in a.info
    ensures IsFirstFailure(a, assumptions, if clashing != 0 then Clashing(clashing) else FirstFailed(first))
  {
    forall l | l in assumptions && -l in a.info
      ensures a.info[-l].level > 0
      ensures clashing == 0 ==> first != 0 && a.info[-l].reason != [] && level <= a.info[-l].level
    {
      var k :| 0 <= k < |assumptions| && assumptions[k] == l;
    }
  }

  /** The failed assumptions alone contradict the formula. */
  method Failing(f: set<Clause>, a: Assignment, assumptions: seq<int>) returns (failed: set<int>, clause: seq<int>)
    requires TrailSound(f, a) && DecisionsAssumed(a, assumptions) && 0 !in assumptions
    requires exists l :: l in assumptions && -l in a.info
    ensures failed <= Lits(assumptions)
    ensures exists r :: IsFirstFailure(a, assumptions, r) && failed == FailedSet(a, r) && (r.FirstFailed? <==> clause != [])
    ensures forall m :: Models(m, f) ==> !AllHold(m, failed)
    ensures clause != [] ==> Lits(clause) == Negated(failed)
  {
    hide Models, ReasonOk, FirstOfLevel, DecisionsBehind;
    var r := FindFailed(a, assumptions);
    failed, clause := {r.l}, [];
    assert r.l in failed && r.l != 0;
    match r
    case FailedUnit(l) =>
      assert ImpliedLiteral(f, {}, -l);
      NegationFails(f, l, {});
    case Clashing(l) =>
      failed := {l, -l};
      forall m: set<int>
        ensures !AllHold(m, failed)
      {
        assert l in failed && -l in failed;
      }
    case FirstFailed(l) =>
      var start := [-l];
      assert Lits(start) == {-l};
      var decs;
      decs, clause := CollectFailed(f, a, start, assumptions);
      NegatedMore(clause + [-l], decs, l);
      clause := clause + [-l];
      failed := decs + {l};
      assert failed == FailedSet(a, r);
      assert -l in Lits(start);
      NegationFails(f, l, decs);
  }

  lemma NegatedList(c: seq<int>, start: seq<int>)
    requires |start| == |c| && forall k :: 0 <= k < |c| ==> start[k] == -c[k]
    ensures Lits(start) == Negated(Lits(c))
  {
    forall l
      ensures l in Lits(start) <==> l in Negated(Lits(c))
    {
      if l in start {
        var k :| 0 <= k < |start| && start[k] == l;
        assert c[k] in Lits(c);
      }
      if l in Negated(Lits(c)) {
        var d :| d in Lits(c) && l == -d;
        var k :| 0 <= k < |c| && c[k] == d;
        assert start[k] == l;
      }
    }
  }

  /** An assumption whose negation follows fails together with what it follows from. */
  lemma NegationFails(f: set<Clause>, l: int, decs: set<int>)
    requires l != 0 && ImpliedLiteral(f, decs, -l)
    ensures forall m :: Models(m, f) ==> !AllHold(m, decs + {l})
  {
    hide Models;
    forall m | Models(m, f)
      ensures !AllHold(m, decs + {l})
    {
      assert l in decs + {l};
      assert AllHold(m, decs + {l}) ==> AllHold(m, decs);
    }
  }

  /** The same for a constraint clause all of whose literals are false. */
  method FailingConstraint(f: set<Clause>, a: Assignment, assumptions: seq<int>, constraint: seq<int>) returns (failed: set<int>)
    requires TrailSound(f, a) && DecisionsAssumed(a, assumptions)
    requires NoDuplicates(constraint) && forall l :: l in constraint ==> -l in a.info
    ensures failed <= Lits(assumptions) && failed == DecisionsBehind(a, Negated(Lits(constraint)))
    ensures forall m :: Models(m, f) && Satisfies(m, Lits(constraint)) ==> !AllHold(m, failed)
  {
    hide DecisionsBehind;
    var start := [];
    var i := 0;
    while i < |constraint|
      invariant 0 <= i <= |constraint| && |start| == i && forall k :: 0 <= k < i ==> start[k] == -constraint[k]
    {
      start := start + [-constraint[i]];
      i := i + 1;
    }
    var clause;
    forall t | t in start
      ensures t in a.info
    {
      var k :| 0 <= k < |start| && start[k] == t;
      assert constraint[k] in constraint;
    }
    failed, clause := CollectFailed(f, a, start, assumptions);
    NegatedList(constraint, start);
    forall m | Models(m, f) && Satisfies(m, Lits(constraint))
      ensures !AllHold(m, failed)
    {
      var l :| l in Lits(constraint) && Holds(m, l);
      var k :| 0 <= k < |constraint| && constraint[k] == l;
      assert start[k] == -l && -l in Lits(start);
      assert l != 0;
    }
  }
}
