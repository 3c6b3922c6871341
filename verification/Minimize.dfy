/** Recursive minimisation of the learned clause with removable, poison and keep flags. */
module Minimize {
  import opened Cnf
  import opened Extension
  import opened Trail
  import opened Analyze

  /** Nothing more to show for the true literal. */
  ghost predicate Settled(a: Assignment, keep: set<int>, removable: set<int>, t: int) {
    t in a.info && (a.info[t].level == 0 || t in removable || t in keep)
  }

  /** Literals that are not even tried. */
  ghost predicate Barred(a: Assignment, level: int, limit: int, count: map<int, int>, earliest: map<int, int>, depth: int, t: int)
    requires t in a.info
  {
    var v := a.info[t];
    || v.reason == [] || v.level == level || depth > limit
    || (depth == 0 && (v.level !in count || count[v.level] < 2))
    || v.level !in earliest || v.pos <= earliest[v.level]
  }

  /** Some other literal of the reason is neither fixed nor kept nor removable. */
  ghost predicate Unsettled(a: Assignment, keep: set<int>, removable: set<int>, t: int)
    requires t in a.info
  {
    exists o :: o in a.info[t].reason && o != t && -o in a.info && !Settled(a, keep, removable, -o)
  }

  /** A literal was poisoned because of a literal of its reason that is neither fixed nor kept. */
  ghost predicate Poisoned(a: Assignment, keep: set<int>, poison: set<int>) {
    forall t :: t in poison ==> t in a.info && Unsettled(a, keep, {}, t)
  }

  /** Literals up to a position of the trail. */
  ghost predicate NotAfter(a: Assignment, s: set<int>, p: int) {
    forall t :: t in s ==> t in a.info && a.info[t].pos <= p
  }

  /** Each literal that stays is not tried, or some literal of its reason is neither fixed nor stays. */
  ghost predicate Minimal(a: Assignment, level: int, limit: int, count: map<int, int>, earliest: map<int, int>, clause: seq<int>) {
    forall l :: l in clause ==> -l in a.info && (Barred(a, level, limit, count, earliest, 0, -l) || Unsettled(a, Negated(Lits(clause)), {}, -l))
  }

  class Minimizer {
    ghost const f: set<Clause>
    const a: Assignment
    const level: int
    const depthLimit: int
    /** Per level: number of seen literals and the trail position of the earliest one. */
    const count: map<int, int>
    const earliest: map<int, int>
    var removable: set<int>
    var poison: set<int>
    var keep: set<int>
    var minimized: seq<int>

    /** Removable literals follow from the formula and the literals kept so far. */
    ghost predicate Valid()
      reads this
    {
      && TrailSound(f, a) && removable + poison == Lits(minimized)
      && (forall t :: t in removable ==> t in a.info && a.info[t].level != level && ImpliedLiteral(f, keep, t))
    }

    constructor (assignment: Assignment, current: int, limit: int, counts: map<int, int>, first: map<int, int>, ghost formula: set<Clause>)
      requires TrailSound(formula, assignment)
      ensures a == assignment && level == current && f == formula && depthLimit == limit && count == counts && earliest == first && Valid()
      ensures removable == {} && poison == {} && keep == {} && minimized == []
    {
      a, level, f, depthLimit, count, earliest := assignment, current, formula, limit, counts, first;
      removable, poison, keep, minimized := {}, {}, {}, [];
    }

    /** Can the true literal be derived from kept literals through reasons?  Unless it is barred, exactly
        if all other literals of its reason can, are kept, or are fixed. */
    method MinimizeLiteral(lit: int, depth: int) returns (res: bool)
      requires Valid() && lit in a.info
      modifies this`removable, this`poison, this`minimized
      ensures Valid() && (res ==> ImpliedLiteral(f, keep, lit))
      ensures a.info[lit].level == level > 0 && lit !in keep ==> !res
      ensures old(removable) <= removable && old(poison) <= poison
      ensures NotAfter(a, removable - old(removable), a.info[lit].pos) && NotAfter(a, poison - old(poison), a.info[lit].pos)
      ensures res ==> Settled(a, keep, removable, lit)
      ensures !res ==> !Settled(a, keep, removable, lit)
      ensures !res ==> Barred(a, level, depthLimit, count, earliest, depth, lit) || lit in poison
      ensures old(!Settled(a, keep, removable, lit)) && (lit in old(poison) || Barred(a, level, depthLimit, count, earliest, depth, lit)) ==> !res
      ensures old(!Settled(a, keep, removable, lit)) && lit !in old(poison) && !Barred(a, level, depthLimit, count, earliest, depth, lit) ==>
                (res <==> forall o :: o in a.info[lit].reason && o != lit ==> Settled(a, keep, removable, -o))
      ensures old(Poisoned(a, keep, poison)) ==> Poisoned(a, keep, poison)
      decreases a.info[lit].pos, 1
    {
      hide ImpliedLiteral, ReasonOk, FirstOfLevel, Poisoned;
      var v := a.info[lit];
      if v.level == 0 || lit in removable || lit in keep {
        ImpliedNow(f, a, keep, lit);
        return true;
      }
      if v.reason == [] || lit in poison || v.level == level {
        return false;
      }
      if depth == 0 && (v.level !in count || count[v.level] < 2) {
        return false;
      }
      if v.level !in earliest || v.pos <= earliest[v.level] || depth > depthLimit {
        return false;
      }
      res := TryReason(lit, depth);
      if res {
        ImpliedByReason(f, a, keep, lit);
        removable := removable + {lit};
      } else {
        PoisonedMore(a, keep, removable, poison, lit);
        poison := poison + {lit};
      }
      LitsAdd(minimized, lit);
      minimized := minimized + [lit];
    }

    /** Tries the other literals of the reason in turn. */
    method TryReason(lit: int, depth: int) returns (res: bool)
      requires Valid() && lit in a.info && a.info[lit].reason != [] && lit !in removable
      modifies this`removable, this`poison, this`minimized
      ensures Valid() && old(removable) <= removable && old(poison) <= poison && lit !in removable
      ensures NotAfter(a, removable - old(removable), a.info[lit].pos) && NotAfter(a, poison - old(poison), a.info[lit].pos)
      ensures res ==> forall k :: 0 <= k < |a.info[lit].reason| && a.info[lit].reason[k] != lit ==> ImpliedLiteral(f, keep, -a.info[lit].reason[k])
      ensures res ==> forall o :: o in a.info[lit].reason && o != lit ==> Settled(a, keep, removable, -o)
      ensures !res ==> Unsettled(a, keep, removable, lit)
      ensures old(Poisoned(a, keep, poison)) ==> Poisoned(a, keep, poison)
      decreases a.info[lit].pos, 0
    {
      hide TrailSound, ImpliedLiteral, ReasonOk, FirstOfLevel, Poisoned, Barred;
      var v := a.info[lit];
      res := true;
      ReasonShape(f, a, lit);
      NaturalPositions(f, a);
      var i := 0;
      while res && i < |v.reason|
        invariant 0 <= i <= |v.reason| && Valid() && lit !in removable
        invariant old(removable) <= removable && old(poison) <= poison
        invariant NotAfter(a, removable - old(removable), v.pos) && NotAfter(a, poison - old(poison), v.pos)
        invariant old(Poisoned(a, keep, poison)) ==> Poisoned(a, keep, poison)
        invariant res ==> forall k :: 0 <= k < i && v.reason[k] != lit ==> ImpliedLiteral(f, keep, -v.reason[k]) && Settled(a, keep, removable, -v.reason[k])
        invariant !res ==> Unsettled(a, keep, removable, lit)
      {
        var other := v.reason[i];
        if other != lit {
          assert other in v.reason;
          res := MinimizeLiteral(-other, depth + 1);
        }
        i := i + 1;
      }
    }

    /** Sorts the clause by trail position and compacts it to the literals that could not be removed; all
        flags end up clear. */
    method MinimizeClause(clause: seq<int>, uip: int) returns (learned: seq<int>)
      requires Valid() && Learned(f, a, level, clause, uip) && level > 0
      requires removable == {} && poison == {} && keep == {} && minimized == []
      modifies this`removable, this`poison, this`keep, this`minimized
      ensures Learned(f, a, level, learned, uip) && Lits(learned) <= Lits(clause)
      ensures Minimal(a, level, depthLimit, count, earliest, learned)
      ensures removable == {} && poison == {} && keep == {} && minimized == []
    {
      hide TrailSound, Covers, ImpliedLiteral, Poisoned, Barred, Settled, Minimal, Sorted, Kept, Stuck, Behind, NotAfter;
      var c := SortByPos(a, clause);
      SortedLearned(f, a, level, clause, c, uip);
      learned := c;
      var i, j := 0, 0;
      StartCompaction(f, a, level, depthLimit, count, earliest, c, uip);
      assert learned[..0] == [];
      while i < |c|
        invariant 0 <= j <= i <= |c| == |learned| && Valid() && learned[i..] == c[i..]
        invariant Kept(f, a, level, c, uip, learned[..j], keep, i)
        invariant Poisoned(a, keep, poison) && Behind(a, poison, c, i)
        invariant Stuck(a, level, depthLimit, count, earliest, learned[..j], poison)
      {
        ghost var before, poison0 := learned[..j], poison;
        assert learned[i] == learned[i..][0] == c[i];
        KeptNew(f, a, level, c, uip, before, keep, i);
        var res := MinimizeLiteral(-learned[i], 0);
        BehindMore(a, poison0, poison, c, i);
        StuckMore(a, level, depthLimit, count, earliest, before, poison0, poison, c[i]);
        if res {
          DropLiteral(f, a, level, c, uip, before, keep, i);
        } else {
          KeepLiteral(f, a, level, c, uip, before, keep, i);
          PoisonedKept(f, a, keep, poison, -c[i]);
          keep := MoreKept(removable, -learned[i]);
          learned := learned[j := learned[i]];
          assert learned[..j + 1] == before + [c[i]];
          j := j + 1;
        }
        i := i + 1;
      }
      learned := learned[..j];
      StillLearned(f, a, level, c, uip, learned, keep);
      StuckMinimal(a, level, depthLimit, count, earliest, learned, keep, poison);
      ClearMinimized(learned);
    }

    /** Resets the flags of the literals that were tried and of those that were kept. */
    method ClearMinimized(learned: seq<int>)
      requires removable + poison == Lits(minimized) && keep == Negated(Lits(learned))
      modifies this`removable, this`poison, this`keep, this`minimized
      ensures removable == {} && poison == {} && keep == {} && minimized == []
    {
      var i := 0;
      while i < |minimized|
        invariant 0 <= i <= |minimized| && minimized == old(minimized) && keep == old(keep)
        invariant forall t :: t in removable || t in poison ==> t in minimized[i..]
      {
        assert minimized[i..] == [minimized[i]] + minimized[i + 1..];
        removable, poison := removable - {minimized[i]}, poison - {minimized[i]};
        i := i + 1;
      }
      NoneLeft(removable, minimized[i..]);
      NoneLeft(poison, minimized[i..]);
      i := 0;
      assert forall t :: t in keep ==> -t in Lits(learned);
      while i < |learned|
        invariant 0 <= i <= |learned| && removable == {} && poison == {}
        invariant forall t :: t in keep ==> -t in learned[i..]
      {
        assert learned[i..] == [learned[i]] + learned[i + 1..];
        keep := keep - {-learned[i]};
        i := i + 1;
      }
      NoneLeft(set t | t in keep :: -t, learned[i..]);
      assert forall t :: t in keep ==> -t in (set t | t in keep :: -t);
      minimized := [];
    }

    /** Keeping another literal preserves what was derived from the others. */
    method MoreKept(r: set<int>, t: int) returns (k: set<int>)
      requires Valid() && r == removable
      ensures k == keep + {t} && forall x :: x in removable ==> ImpliedLiteral(f, k, x)
    {
      k := keep + {t};
      forall x | x in removable
        ensures ImpliedLiteral(f, k, x)
      {
        ImpliedMore(f, keep, k, x);
      }
    }
  }

  // ----- order and minimality -----

  ghost predicate Sorted(a: Assignment, c: seq<int>) {
    forall i, j :: 0 <= i < j < |c| ==> PosOf(a, c[i]) <= PosOf(a, c[j])
  }

  function PosOf(a: Assignment, l: int): int {
    if -l in a.info then a.info[-l].pos else -1
  }

  function InsertByPos(a: Assignment, l: int, c: seq<int>): (r: seq<int>)
    ensures |r| == |c| + 1 && forall y :: y in r <==> y == l || y in c
  {
    if c == [] then [l]
    else if PosOf(a, l) <= PosOf(a, c[0]) then [l] + c
    else
      assert c == [c[0]] + c[1..];
      [c[0]] + InsertByPos(a, l, c[1..])
  }

  lemma {:induction false} InsertSorted(a: Assignment, l: int, c: seq<int>)
    requires Sorted(a, c) && NoDuplicates(c) && l !in c
    ensures Sorted(a, InsertByPos(a, l, c)) && NoDuplicates(InsertByPos(a, l, c))
  {
    if c != [] {
      assert forall j :: 0 <= j < |c| ==> PosOf(a, c[0]) <= PosOf(a, c[j]);
      if PosOf(a, l) <= PosOf(a, c[0]) {
        ConsSorted(a, l, c);
      } else {
        InsertSorted(a, l, c[1..]);
        ConsSorted(a, c[0], InsertByPos(a, l, c[1..]));
      }
    }
  }

  lemma ConsSorted(a: Assignment, l: int, c: seq<int>)
    requires Sorted(a, c) && NoDuplicates(c) && l !in c && forall y :: y in c ==> PosOf(a, l) <= PosOf(a, y)
    ensures Sorted(a, [l] + c) && NoDuplicates([l] + c)
  {
    var d := [l] + c;
    forall i, j | 0 <= i < j < |d|
      ensures PosOf(a, d[i]) <= PosOf(a, d[j]) && d[i] != d[j]
    {
      assert d[j] == c[j - 1] && c[j - 1] in c;
      if i > 0 {
        assert d[i] == c[i - 1];
      }
    }
  }

  /** Any sorting algorithm will do. */
  method SortByPos(a: Assignment, clause: seq<int>) returns (c: seq<int>)
    requires NoDuplicates(clause)
    ensures Lits(c) == Lits(clause) && NoDuplicates(c) && Sorted(a, c)
  {
    hide Sorted, InsertByPos;
    c := [];
    NothingSorted(a);
    var i := 0;
    while i < |clause|
      invariant 0 <= i <= |clause| && NoDuplicates(c) && Sorted(a, c) && forall y :: y in c <==> y in clause[..i]
    {
      assert clause[i] in clause && clause[i] !in clause[..i];
      assert clause[..i + 1] == clause[..i] + [clause[i]];
      InsertSorted(a, clause[i], c);
      c := InsertByPos(a, clause[i], c);
      i := i + 1;
    }
    assert clause[..|clause|] == clause;
    SameMembers(c, clause);
  }

  lemma SameMembers(c: seq<int>, d: seq<int>)
    requires forall y :: y in c <==> y in d
    ensures Lits(c) == Lits(d)
  {
    forall l
      ensures l in Lits(c) <==> l in Lits(d)
    {
    }
  }

  lemma NothingSorted(a: Assignment)
    ensures Sorted(a, [])
  {
  }

  lemma SortedLearned(f: set<Clause>, a: Assignment, level: int, clause: seq<int>, c: seq<int>, uip: int)
    requires Learned(f, a, level, clause, uip) && Lits(c) == Lits(clause) && NoDuplicates(c)
    ensures Learned(f, a, level, c, uip)
  {
    hide Covers;
    forall l
      ensures l in c <==> l in clause
    {
      assert l in Lits(c) <==> l in Lits(clause);
    }
  }

  lemma NaturalPositions(f: set<Clause>, a: Assignment)
    requires TrailSound(f, a)
    ensures forall t :: t in a.info ==> a.info[t].pos >= 0
  {
  }

  lemma StartCompaction(f: set<Clause>, a: Assignment, level: int, limit: int, count: map<int, int>, earliest: map<int, int>, c: seq<int>, uip: int)
    ensures Kept(f, a, level, c, uip, [], {}, 0) && Poisoned(a, {}, {}) && Behind(a, {}, c, 0) && Stuck(a, level, limit, count, earliest, [], {})
  {
  }

  /** Poisoned literals lie before the clause literals still to come. */
  ghost predicate Behind(a: Assignment, poison: set<int>, c: seq<int>, i: int)
    requires 0 <= i <= |c|
  {
    forall t, k :: t in poison && i <= k < |c| ==> t in a.info && a.info[t].pos <= PosOf(a, c[k])
  }

  lemma BehindMore(a: Assignment, poison0: set<int>, poison: set<int>, c: seq<int>, i: int)
    requires Sorted(a, c) && 0 <= i < |c| && Behind(a, poison0, c, i) && poison0 <= poison && -c[i] in a.info
    requires NotAfter(a, poison - poison0, a.info[-c[i]].pos)
    ensures Behind(a, poison, c, i + 1) && NotAfter(a, poison, a.info[-c[i]].pos)
  {
    forall t | t in poison
      ensures t in a.info && a.info[t].pos <= PosOf(a, c[i])
    {
      assert t !in poison0 ==> t in poison - poison0;
    }
    assert forall k :: i < k < |c| ==> PosOf(a, c[i]) <= PosOf(a, c[k]);
    hide PosOf;
  }

  /** Literals that stay were not tried or were poisoned. */
  ghost predicate Stuck(a: Assignment, level: int, limit: int, count: map<int, int>, earliest: map<int, int>, kept: seq<int>, poison: set<int>) {
    forall l :: l in kept ==> -l in a.info && (Barred(a, level, limit, count, earliest, 0, -l) || -l in poison)
  }

  lemma StuckMore(a: Assignment, level: int, limit: int, count: map<int, int>, earliest: map<int, int>, kept: seq<int>, poison0: set<int>, poison: set<int>, l: int)
    requires Stuck(a, level, limit, count, earliest, kept, poison0) && poison0 <= poison
    ensures Stuck(a, level, limit, count, earliest, kept, poison)
    ensures -l in a.info && (Barred(a, level, limit, count, earliest, 0, -l) || -l in poison) ==> Stuck(a, level, limit, count, earliest, kept + [l], poison)
  {
    hide Barred;
  }

  lemma PoisonedMore(a: Assignment, keep: set<int>, removable: set<int>, poison: set<int>, t: int)
    requires t in a.info && Unsettled(a, keep, removable, t)
    ensures Poisoned(a, keep, poison) ==> Poisoned(a, keep, poison + {t})
  {
    var o :| o in a.info[t].reason && o != t && -o in a.info && !Settled(a, keep, removable, -o);
    assert !Settled(a, keep, {}, -o);
    assert Unsettled(a, keep, {}, t);
  }

  /** Keeping a literal that comes later on the trail settles no reason of a poisoned one. */
  lemma PoisonedKept(f: set<Clause>, a: Assignment, keep: set<int>, poison: set<int>, u: int)
    requires TrailSound(f, a) && Poisoned(a, keep, poison) && u in a.info && NotAfter(a, poison, a.info[u].pos)
    ensures Poisoned(a, keep + {u}, poison)
  {
    hide TrailSound;
    forall t | t in poison
      ensures Unsettled(a, keep + {u}, {}, t)
    {
      assert Unsettled(a, keep, {}, t);
      var o :| o in a.info[t].reason && o != t && -o in a.info && !Settled(a, keep, {}, -o);
      ReasonShape(f, a, t);
      assert FalseBefore(a, o, a.info[t].pos);
      assert !Settled(a, keep + {u}, {}, -o);
    }
  }

  lemma StuckMinimal(a: Assignment, level: int, limit: int, count: map<int, int>, earliest: map<int, int>, kept: seq<int>, keep: set<int>, poison: set<int>)
    requires Stuck(a, level, limit, count, earliest, kept, poison) && Poisoned(a, keep, poison) && keep == Negated(Lits(kept))
    ensures Minimal(a, level, limit, count, earliest, kept)
  {
    hide Barred, Unsettled;
  }

  lemma NoneLeft(s: set<int>, c: seq<int>)
    requires c == [] && forall t :: t in s ==> t in c
    ensures s == {}
  {
    if |s| > 0 {
      var t := Member(s);
      assert false;
    }
  }

  lemma ImpliedMore(f: set<Clause>, x: set<int>, y: set<int>, t: int)
    requires x <= y && ImpliedLiteral(f, x, t)
    ensures ImpliedLiteral(f, y, t)
  {
  }

  lemma ImpliedNow(f: set<Clause>, a: Assignment, keep: set<int>, t: int)
    requires TrailSound(f, a) && t in a.info && (a.info[t].level == 0 || t in keep || ImpliedLiteral(f, keep, t))
    ensures ImpliedLiteral(f, keep, t)
  {
    hide ReasonOk, FirstOfLevel;
  }

  lemma ReasonShape(f: set<Clause>, a: Assignment, t: int)
    requires TrailSound(f, a) && t in a.info && a.info[t].reason != []
    ensures forall o :: o in a.info[t].reason && o != t ==> FalseBefore(a, o, a.info[t].pos)
  {
    assert ReasonOk(f, a, t);
  }

  lemma ImpliedByReason(f: set<Clause>, a: Assignment, keep: set<int>, t: int)
    requires TrailSound(f, a) && t in a.info && a.info[t].reason != []
    requires forall k :: 0 <= k < |a.info[t].reason| && a.info[t].reason[k] != t ==> ImpliedLiteral(f, keep, -a.info[t].reason[k])
    ensures ImpliedLiteral(f, keep, t)
  {
    hide ReasonOk, FirstOfLevel, Models;
    forall m | Models(m, f) && AllHold(m, keep)
      ensures Holds(m, t)
    {
      forall o | o in a.info[t].reason && o != t
        ensures Holds(m, -o)
      {
        var k :| 0 <= k < |a.info[t].reason| && a.info[t].reason[k] == o;
        assert ImpliedLiteral(f, keep, -a.info[t].reason[k]);
      }
      ReasonForces(f, a, t, m);
    }
  }

  /** The first `i` literals of the clause are either in `kept` or derivable from it. */
  ghost predicate Kept(f: set<Clause>, a: Assignment, level: int, clause: seq<int>, uip: int, kept: seq<int>, keep: set<int>, i: int) {
    && 0 <= i <= |clause| && NoDuplicates(kept) && keep == Negated(Lits(kept))
    && (forall l :: l in kept ==> l in clause[..i])
    && (forall k :: 0 <= k < i ==> clause[k] in kept || ImpliedLiteral(f, keep, -clause[k]))
    && (forall k :: 0 <= k < i && clause[k] == -uip ==> -uip in kept)
  }

  /** The literal about to be tried is false and has not been kept. */
  lemma KeptNew(f: set<Clause>, a: Assignment, level: int, clause: seq<int>, uip: int, kept: seq<int>, keep: set<int>, i: int)
    requires Kept(f, a, level, clause, uip, kept, keep, i) && i < |clause| && Learned(f, a, level, clause, uip)
    ensures -clause[i] in a.info && -clause[i] !in keep && clause[i] !in kept
    ensures clause[i] == -uip ==> a.info[-clause[i]].level == level
  {
    hide Covers, ImpliedLiteral;
    assert clause[i] in clause;
    assert clause[i] !in clause[..i];
    assert forall t :: t in keep ==> -t in Lits(kept);
  }

  lemma DropLiteral(f: set<Clause>, a: Assignment, level: int, clause: seq<int>, uip: int, kept: seq<int>, keep: set<int>, i: int)
    requires Kept(f, a, level, clause, uip, kept, keep, i) && i < |clause| && clause[i] != -uip && ImpliedLiteral(f, keep, -clause[i])
    ensures Kept(f, a, level, clause, uip, kept, keep, i + 1)
  {
    hide ImpliedLiteral;
    assert clause[..i + 1] == clause[..i] + [clause[i]];
  }

  lemma KeepLiteral(f: set<Clause>, a: Assignment, level: int, clause: seq<int>, uip: int, kept: seq<int>, keep: set<int>, i: int)
    requires Kept(f, a, level, clause, uip, kept, keep, i) && i < |clause| && clause[i] !in kept
    ensures Kept(f, a, level, clause, uip, kept + [clause[i]], keep + {-clause[i]}, i + 1)
  {
    hide ImpliedLiteral;
    var kept', keep' := kept + [clause[i]], keep + {-clause[i]};
    assert clause[..i + 1] == clause[..i] + [clause[i]];
    LitsAdd(kept, clause[i]);
    assert Negated(Lits(kept) + {clause[i]}) == Negated(Lits(kept)) + {-clause[i]};
    forall k | 0 <= k < i + 1
      ensures clause[k] in kept' || ImpliedLiteral(f, keep', -clause[k])
    {
      if k < i && clause[k] !in kept {
        ImpliedMore(f, keep, keep', -clause[k]);
      }
    }
  }

  /** Dropping derivable literals keeps the clause implied, and the first UIP stays. */
  lemma StillLearned(f: set<Clause>, a: Assignment, level: int, clause: seq<int>, uip: int, kept: seq<int>, keep: set<int>)
    requires TrailSound(f, a) && Learned(f, a, level, clause, uip) && Kept(f, a, level, clause, uip, kept, keep, |clause|)
    ensures Learned(f, a, level, kept, uip) && Lits(kept) <= Lits(clause) && keep == Negated(Lits(kept))
  {
    hide Models, ReasonOk, FirstOfLevel;
    assert clause[..|clause|] == clause;
    forall m | Models(m, f)
      ensures Satisfies(m, Lits(kept))
    {
      if !Satisfies(m, Lits(kept)) {
        var l :| l in Lits(clause) && Holds(m, l);
        KeptHolds(f, a, level, clause, uip, kept, keep, m, l);
      }
    }
  }

  lemma KeptHolds(f: set<Clause>, a: Assignment, level: int, clause: seq<int>, uip: int, kept: seq<int>, keep: set<int>, m: set<int>, l: int)
    requires Learned(f, a, level, clause, uip) && Kept(f, a, level, clause, uip, kept, keep, |clause|)
    requires Models(m, f) && !Satisfies(m, Lits(kept)) && l in clause && 0 !in kept && l != 0
    ensures !Holds(m, l)
  {
    hide Models, Covers;
    forall t | t in keep
      ensures Holds(m, t)
    {
      assert -t in Lits(kept);
    }
    var k :| 0 <= k < |clause| && clause[k] == l;
    if l in kept {
      assert l in Lits(kept);
    } else {
      assert ImpliedLiteral(f, keep, -clause[k]);
    }
  }
}
