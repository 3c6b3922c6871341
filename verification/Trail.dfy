/** The assignment of the SAT solver: literals in the order they were assigned, each with its
    decision level and the clause that forced it. */
module Trail {
  import opened Cnf
  import opened Extension

  /** A decision or a root-level unit has no reason clause. */
  datatype Info = Info(level: int, reason: seq<int>, pos: int)

  /** `info` maps each true literal to its data. */
  datatype Assignment = Assignment(trail: seq<int>, info: map<int, Info>)

  /** Literal `l` is false and was assigned before position `p`. */
  predicate FalseBefore(a: Assignment, l: int, p: int) {
    -l in a.info && a.info[-l].pos < p
  }

  /** The reason of `t` is a clause of the formula that was unit when `t` was assigned. */
  ghost predicate ReasonOk(f: set<Clause>, a: Assignment, t: int)
    requires t in a.info
  {
    && Lits(a.info[t].reason) in f && t in a.info[t].reason
    && forall o :: o in a.info[t].reason && o != t ==>
         FalseBefore(a, o, a.info[t].pos) && a.info[-o].level <= a.info[t].level
  }

  /** A decision is the first literal of its level. */
  ghost predicate FirstOfLevel(a: Assignment, t: int)
    requires t in a.info
  {
    forall o :: o in a.info && a.info[o].pos < a.info[t].pos ==> a.info[o].level != a.info[t].level
  }

  ghost predicate ImpliedLiteral(f: set<Clause>, given: set<int>, l: int) {
    forall m :: Models(m, f) && AllHold(m, given) ==> Holds(m, l)
  }

  ghost predicate Positions(a: Assignment) {
    && (forall i :: 0 <= i < |a.trail| ==> a.trail[i] in a.info && a.info[a.trail[i]].pos == i)
    && (forall t :: t in a.info ==> 0 <= a.info[t].pos < |a.trail| && a.trail[a.info[t].pos] == t)
  }

  ghost predicate Literals(a: Assignment) {
    forall t :: t in a.info ==> t != 0 && -t !in a.info && a.info[t].level >= 0
  }

  /** What search keeps about the trail. */
  ghost predicate TrailSound(f: set<Clause>, a: Assignment) {
    && Positions(a) && Literals(a)
    && (forall t :: t in a.info && a.info[t].reason != [] ==> ReasonOk(f, a, t))
    && (forall t :: t in a.info && a.info[t].level == 0 ==> ImpliedLiteral(f, {}, t))
    && (forall t :: t in a.info && a.info[t].reason == [] && a.info[t].level > 0 ==> FirstOfLevel(a, t))
  }

  lemma RootHolds(f: set<Clause>, a: Assignment, t: int, m: set<int>)
    requires TrailSound(f, a) && t in a.info && a.info[t].level == 0 && Models(m, f)
    ensures Holds(m, t)
  {
    hide Models, ReasonOk, FirstOfLevel;
    assert ImpliedLiteral(f, {}, t);
  }

  /** Unit propagation: with all other literals of the reason false, the literal is true. */
  lemma ReasonForces(f: set<Clause>, a: Assignment, t: int, m: set<int>)
    requires TrailSound(f, a) && t in a.info && a.info[t].reason != [] && Models(m, f)
    requires forall o :: o in a.info[t].reason && o != t ==> Holds(m, -o)
    ensures Holds(m, t)
  {
    hide ImpliedLiteral, FirstOfLevel;
    assert ReasonOk(f, a, t);
    var cl := Lits(a.info[t].reason);
    var l :| l in cl && Holds(m, l);
    assert l != t ==> -(-l) == l;
  }
}
