/** Equivalent literals: one depth-first search over the binary implication graph that assigns each
    literal the literal of smallest index in its component, or finds complementary literals in one. */
module Tarjan {
  import opened Cnf
  import opened Graph
  import opened Dfs

  /** Frozen literals keep themselves; others get the smallest literal of their component. */
  ghost predicate IsRepr(g: Graph, frozen: set<int>, l: int, r: int) {
    if l in frozen then r == l else Mutual(g, l, r) && forall y :: Mutual(g, l, y) ==> Abs(r) <= Abs(y)
  }

  ghost predicate ReprsOk(g: Graph, frozen: set<int>, reprs: map<int, int>, done: set<int>) {
    forall l :: l in done ==> l in reprs && IsRepr(g, frozen, l, reprs[l]) && !Mutual(g, l, -l)
  }

  /** Nothing in the graph forces a literal and its negation to be equal. */
  ghost predicate Contradictory(g: Graph) {
    exists p :: p in g.lits && Mutual(g, p, -p)
  }

  /** Members of a seq from position `j` on. */
  function From(c: seq<int>, j: int): set<int>
    requires 0 <= j <= |c|
  {
    set i | j <= i < |c| :: c[i]
  }

  /** Walks down the component stack to `parent`, looking for its negation and the literal of
      smallest index. */
  method ScanComponent(scc: seq<int>, parent: int) returns (clash: bool, repr: int, j: int)
    requires parent in scc
    ensures 0 <= j < |scc| && parent !in scc[j + 1..]
    ensures clash ==> scc[j] == -parent && (parent != -parent ==> parent !in scc[j..])
    ensures !clash ==> scc[j] == parent && -parent !in From(scc, j)
    ensures !clash ==> repr in From(scc, j) && forall y :: y in From(scc, j) ==> Abs(repr) <= Abs(y)
  {
    repr := parent;
    j := |scc|;
    var other := parent + 1;
    while other != parent
      invariant 0 <= j <= |scc| && (other == parent ==> j < |scc| && scc[j] == parent && parent !in scc[j + 1..])
      invariant other != parent ==> parent !in scc[j..]
      invariant -parent !in From(scc, j)
      invariant repr == parent || repr in From(scc, j)
      invariant Abs(repr) <= Abs(parent) && forall y :: y in From(scc, j) ==> Abs(repr) <= Abs(y)
      decreases j
    {
      if j == 0 {
        assert false;
      }
      j := j - 1;
      other := scc[j];
      assert scc[j..] == [other] + scc[j + 1..];
      assert From(scc, j) == From(scc, j + 1) + {other};
      if other == -parent {
        return true, repr, j;
      }
      if Abs(other) < Abs(repr) {
        repr := other;
      }
    }
    clash := false;
  }

  /** The part of the component stack from an entry node on. */
  lemma StackSegment(d: Tree, p: int, j: int)
    requires StackOk(d) && 0 <= j < |d.scc| && d.scc[j] == p
    ensures Segment(d, p, From(d.scc, j))
  {
    assert p in d.scc;
    forall y
      ensures y in From(d.scc, j) <==> Live(d, y) && d.idx[y] >= d.idx[p]
    {
      if y in From(d.scc, j) {
        var i :| j <= i < |d.scc| && d.scc[i] == y;
        assert y in d.scc;
        assert i > j ==> d.idx[d.scc[j]] < d.idx[d.scc[i]];
      }
      if Live(d, y) && d.idx[y] >= d.idx[p] {
        assert y in d.scc;
        var i :| 0 <= i < |d.scc| && d.scc[i] == y;
        assert i < j ==> d.idx[d.scc[i]] < d.idx[d.scc[j]];
      }
    }
  }

  lemma ComponentReprs(g: Graph, d: Tree, p: int, s: set<int>, repr: int, frozen: set<int>, y: int)
    requires GraphOk(g) && Skew(g) && EntryOf(g, d, p, s) && -p !in s && repr in s && y in s && forall z :: z in s ==> Abs(repr) <= Abs(z)
    ensures IsRepr(g, frozen, y, if y in frozen then y else repr) && !Mutual(g, y, -y)
  {
    hide EntryOf, Reach;
    SegmentIsComponent(g, d, p, s, y);
    SegmentIsComponent(g, d, p, s, repr);
    SegmentIsComponent(g, d, p, s, -p);
    MutualTrans(g, y, p, repr);
    forall z | Mutual(g, y, z)
      ensures Abs(repr) <= Abs(z)
    {
      MutualTrans(g, p, y, z);
      SegmentIsComponent(g, d, p, s, z);
    }
    if Mutual(g, y, -y) {
      MutualTrans(g, p, y, -y);
      ComplementSpreads(g, p, y);
    }
  }

  class Search {
    const g: Graph
    const frozen: set<int>
    var idx: map<int, int>
    var low: map<int, int>
    var done: set<int>
    var next: int
    var work: seq<int>
    var scc: seq<int>
    var reprs: map<int, int>
    var unsat: bool
    ghost var path: seq<int>
    ghost var open: seq<int>
    ghost var fin: map<int, int>

    ghost function State(): Tree
      reads this
    {
      Tree(idx, low, done, next, scc, path, fin)
    }

    ghost predicate Valid()
      reads this
    {
      && GraphOk(g) && Skew(g)
      && (if unsat then Contradictory(g)
          else TreeOk(g, State()) && WorkOk(g, State(), work, open) && ReprsOk(g, frozen, reprs, done))
    }

    constructor (graph: Graph, keep: set<int>)
      requires GraphOk(graph) && Skew(graph)
      ensures Valid() && g == graph && frozen == keep && !unsat && work == [] && done == {} && path == [] && idx == map[]
    {
      g, frozen := graph, keep;
      idx, low, done, next, work, scc, reprs, unsat := map[], map[], {}, 0, [], [], map[], false;
      path, open, fin := [], [], map[];
    }

    /** First visit: number the node and push its unvisited successors. */
    method PreFix(parent: int)
      requires Valid() && !unsat && work != [] && parent == work[|work| - 1] && parent !in idx
      modifies this`idx, this`low, this`next, this`work, this`scc, this`path, this`open
      ensures Valid() && idx.Keys == old(idx).Keys + {parent} && old(work) <= work
    {
      hide TreeOk, WorkOk, ReprsOk, Contradictory, Skew, GraphOk, Pushes, PathOk, Basics, StackOk;
      ghost var d, n := State(), |work| - 1;
      TreePath(g, d);
      WorkTop(g, d, work, open);
      var cs := Unvisited(parent);
      TopHangs(g, d, work, open);
      VisitKeeps(g, d, parent);
      VisitWork(g, d, work, open, cs);
      next := next + 1;
      idx, low := idx[parent := next], low[parent := next];
      scc := scc + [parent];
      path, open := path + [parent], open + [n];
      work := work + cs;
      assert State() == Visited(d, parent);
    }

    method Unvisited(parent: int) returns (cs: seq<int>)
      requires GraphOk(g) && parent in g.lits && parent !in idx
      ensures Pushes(g, State(), parent, cs)
    {
      cs := [];
      var i := 0;
      var ws := g.succ[parent];
      while i < |ws|
        invariant 0 <= i <= |ws|
        invariant forall k :: 0 <= k < |cs| ==> cs[k] in ws && cs[k] !in idx && cs[k] != parent
        invariant forall k :: 0 <= k < i && ws[k] !in idx && ws[k] != parent ==> ws[k] in cs
      {
        if ws[i] !in idx && ws[i] != parent {
          cs := cs + [ws[i]];
        }
        i := i + 1;
      }
    }

    /** Smallest low value of a node and its successors that are not yet traversed. */
    method LeastLow(parent: int) returns (v: int)
      requires GraphOk(g) && TreeOk(g, State()) && Live(State(), parent) && forall c :: Edge(g, parent, c) ==> c in idx
      ensures NewLow(g, State(), parent, v)
    {
      hide StackOk, PathOk, PathReaches, LowOk, ChildrenVisited, Inside, Bounds, Covered, DoneClosed, FinBound;
      v := low[parent];
      var ws := g.succ[parent];
      var i := 0;
      while i < |ws|
        invariant 0 <= i <= |ws| && v <= low[parent]
        invariant forall k :: 0 <= k < i && ws[k] in idx && ws[k] !in done ==> ws[k] in low && v <= low[ws[k]]
        invariant v == low[parent] || exists c :: c in ws && c in idx && c !in done && c in low && v == low[c]
      {
        var child := ws[i];
        assert Edge(g, parent, child);
        if child !in done && low[child] < v {
          v := low[child];
        }
        i := i + 1;
      }
    }

    /** All successors are visited: update the low value, and close the component at its entry. */
    method PostFix(parent: int)
      requires Valid() && !unsat && work != [] && parent == work[|work| - 1] && parent in idx && parent !in done
      modifies this`low, this`done, this`work, this`scc, this`reprs, this`unsat, this`path, this`open, this`fin
      ensures Valid() && (!unsat ==> work == old(work)[..|old(work)| - 1]) && old(done) <= done
    {
      hide TreeOk, WorkOk, ReprsOk, Contradictory, Skew, GraphOk, PathOk, Basics, StackOk, NewLow, Edge;
      ghost var d, n := State(), |work| - 1;
      TreePath(g, d);
      SuccessorsVisited(g, d, work, open);
      var v := LeastLow(parent);
      if v == idx[parent] {
        EntryOnPath(g, d, parent, v);
        TopOfPath(g, d, work, open);
        CloseComponent(parent);
      } else {
        LowerLow(g, d, parent, v);
        if parent in d.path {
          TopOfPath(g, d, work, open);
          FinishKeeps(g, d, parent, v);
          PopOpen(g, d, Finish(d, parent, v), work, open);
          path, open, fin := path[..|path| - 1], open[..|open| - 1], fin[parent := next];
        } else {
          RelowKeeps(g, d, parent, v);
          PopKeeps(g, d, work, open);
          SameWork(g, d, Relow(d, parent, v), work[..n], open);
        }
        low := low[parent := v];
        work := work[..|work| - 1];
        assert State() == if parent in d.path then Finish(d, parent, v) else Relow(d, parent, v);
      }
    }

    /** Closes the component above `parent`, unless it contains complementary literals. */
    method CloseComponent(parent: int)
      requires Valid() && !unsat && work != [] && parent == work[|work| - 1] && Live(State(), parent)
      requires path != [] && parent == path[|path| - 1] && open != [] && open[|open| - 1] == |work| - 1
      requires NewLow(g, State(), parent, idx[parent]) && forall c :: Edge(g, parent, c) ==> c in idx
      modifies this`done, this`work, this`scc, this`reprs, this`unsat, this`path, this`open
      ensures Valid() && (!unsat ==> work == old(work)[..|old(work)| - 1]) && old(done) <= done
    {
      hide TreeOk, WorkOk, ReprsOk, Skew, GraphOk, PathOk, Basics, NewLow, Edge, Reach, Mutual;
      ghost var d := State();
      TreePath(g, d);
      assert parent in scc;
      var clash, repr, j := ScanComponent(scc, parent);
      if clash {
        ClashFound(g, d, parent, j);
        unsat := true;
      } else {
        StackSegment(d, parent, j);
        assert EntryOf(g, d, parent, From(scc, j));
        PopComponent(parent, repr, j);
      }
    }

    /** Takes the component off both stacks. */
    method PopComponent(parent: int, repr: int, j: int)
      requires Valid() && !unsat && work != [] && parent == work[|work| - 1] && 0 <= j < |scc| && scc[j] == parent && EntryOf(g, State(), parent, From(scc, j))
      requires path != [] && parent == path[|path| - 1] && open != [] && open[|open| - 1] == |work| - 1
      requires -parent !in From(scc, j) && repr in From(scc, j) && forall y :: y in From(scc, j) ==> Abs(repr) <= Abs(y)
      modifies this`done, this`work, this`scc, this`reprs, this`path, this`open
      ensures Valid() && work == old(work)[..|old(work)| - 1] && old(done) <= done
    {
      hide TreeOk, WorkOk, ReprsOk, Skew, GraphOk, NewLow, Edge, Reach, Mutual;
      ghost var d, s := State(), From(scc, j);
      CloseKeeps(g, d, parent, s, j);
      PopOpen(g, d, Close(d, s, j), work, open);
      var r, closed := RecordComponent(scc, j, repr);
      NewReprs(g, d, parent, s, repr, frozen, reprs, r, done);
      reprs, done := r, done + closed;
      scc, work := scc[..j], work[..|work| - 1];
      path, open := path[..|path| - 1], open[..|open| - 1];
      assert State() == Close(d, s, j);
    }

    /** Pops the component and records the representative of each of its literals. */
    method RecordComponent(stack: seq<int>, j: int, repr: int) returns (r: map<int, int>, closed: set<int>)
      requires 0 <= j <= |stack|
      ensures closed == From(stack, j)
      ensures forall l :: l in From(stack, j) ==> l in r && r[l] == if l in frozen then l else repr
      ensures forall l :: l in reprs && l !in From(stack, j) ==> l in r && r[l] == reprs[l]
    {
      r, closed := reprs, {};
      var i := |stack|;
      while i > j
        invariant j <= i <= |stack| && closed == From(stack, i)
        invariant forall l :: l in From(stack, i) ==> l in r && r[l] == if l in frozen then l else repr
        invariant forall l :: l in reprs && l !in From(stack, i) ==> l in r && r[l] == reprs[l]
      {
        i := i - 1;
        var other := stack[i];
        assert From(stack, i) == From(stack, i + 1) + {other};
        closed := closed + {other};
        r := r[other := if other in frozen then other else repr];
      }
    }

    /** One depth-first search from a root. */
    method SearchFrom(root: int)
      requires Valid() && !unsat && work == [] && root in g.lits && path == []
      modifies this
      ensures Valid() && (!unsat ==> work == [] && path == [] && root in done && old(done) <= done)
    {
      hide TreeOk, WorkOk, ReprsOk, Contradictory, Skew, GraphOk;
      StartWork(g, State(), root, open);
      work := [root];
      while !unsat && work != []
        invariant Valid() && (!unsat ==> old(done) <= done)
        invariant !unsat ==> root in idx || (work != [] && work[0] == root)
        decreases !unsat, g.lits - idx.Keys, |work|
      {
        var parent := work[|work| - 1];
        WorkTop(g, State(), work, open);
        ghost var unvisited := g.lits - idx.Keys;
        if parent in done {
          DoneOffPath(g, State(), parent);
          SkipTraversed();
        } else if parent in idx {
          PostFix(parent);
        } else {
          assert parent in unvisited;
          PreFix(parent);
          assert g.lits - idx.Keys == unvisited - {parent};
        }
      }
      if !unsat {
        EmptyWork(g, State(), work, open);
      }
    }

    /** Drops a completely traversed node from the working stack. */
    method SkipTraversed()
      requires Valid() && !unsat && work != [] && work[|work| - 1] in done
      modifies this`work
      ensures Valid() && work == old(work)[..|old(work)| - 1]
    {
      hide ReprsOk, Contradictory, Skew, GraphOk, Basics, StackOk, PathOk, PathReaches, LowOk, ChildrenVisited, Inside, Bounds, Covered, DoneClosed, FinBound, WorkOk;
      DoneOffPath(g, State(), work[|work| - 1]);
      PopKeeps(g, State(), work, open);
      work := work[..|work| - 1];
    }

    /** All components, searching from each root in turn. */
    method Components(roots: seq<int>)
      requires Valid() && !unsat && work == [] && path == [] && done == {} && forall l :: l in g.lits <==> l in roots
      modifies this
      ensures Valid() && (unsat <==> Contradictory(g))
      ensures !unsat ==> forall l :: l in g.lits ==> l in reprs && IsRepr(g, frozen, l, reprs[l]) && !Mutual(g, l, -l)
    {
      hide TreeOk, WorkOk, GraphOk, Skew, IsRepr, Mutual;
      var i := 0;
      while i < |roots|
        invariant 0 <= i <= |roots| && Valid() && (!unsat ==> work == [] && path == [])
        invariant !unsat ==> forall k :: 0 <= k < i ==> roots[k] in done
      {
        if unsat {
          return;
        }
        assert roots[i] in roots;
        if roots[i] !in done {
          SearchFrom(roots[i]);
        }
        i := i + 1;
      }
    }
  }

  lemma WorkTop(g: Graph, d: Tree, work: seq<int>, open: seq<int>)
    requires WorkOk(g, d, work, open) && work != []
    ensures work[|work| - 1] in g.lits
  {
    hide OpenOk, Waiting, Ladder;
  }

  lemma TreePath(g: Graph, d: Tree)
    requires TreeOk(g, d)
    ensures PathOk(d) && Basics(g, d) && StackOk(d)
  {
    hide PathReaches, LowOk, ChildrenVisited, Inside, Bounds, Covered, DoneClosed, FinBound;
  }

  lemma SuccessorsVisited(g: Graph, d: Tree, work: seq<int>, open: seq<int>)
    requires TreeOk(g, d) && WorkOk(g, d, work, open) && work != [] && Live(d, work[|work| - 1])
    ensures forall c :: Edge(g, work[|work| - 1], c) ==> c in d.idx
  {
    hide Edge, Basics, StackOk, PathOk, PathReaches, LowOk, Inside, Bounds, Covered, DoneClosed, FinBound;
    var p := work[|work| - 1];
    if p in d.path {
      TopOfPath(g, d, work, open);
    } else {
      assert Finished(d, p);
    }
  }

  /** Only a path node can have a low value equal to its index. */
  lemma EntryOnPath(g: Graph, d: Tree, p: int, v: int)
    requires TreeOk(g, d) && Live(d, p) && NewLow(g, d, p, v) && v == d.idx[p]
    ensures p in d.path
  {
    hide Edge, Basics, StackOk, PathOk, PathReaches, ChildrenVisited, Inside, Bounds, Covered, DoneClosed, FinBound;
  }

  lemma LowerLow(g: Graph, d: Tree, p: int, v: int)
    requires TreeOk(g, d) && Live(d, p) && NewLow(g, d, p, v) && v != d.idx[p]
    ensures v < d.idx[p]
  {
    hide TreeOk, Edge;
    LowAtMostIdx(g, d, p);
  }

  lemma SameWork(g: Graph, d: Tree, e: Tree, work: seq<int>, open: seq<int>)
    requires WorkOk(g, d, work, open) && e.path == d.path && e.idx == d.idx
    ensures WorkOk(g, e, work, open)
  {
    hide OpenOk, Ladder, Edge;
  }

  lemma ClashFound(g: Graph, d: Tree, p: int, j: int)
    requires TreeOk(g, d) && StackOk(d) && Live(d, p) && d.path != [] && p == d.path[|d.path| - 1] && NewLow(g, d, p, d.idx[p])
    requires (forall c :: Edge(g, p, c) ==> c in d.idx) && 0 <= j < |d.scc| && d.scc[j] == -p && (p != -p ==> p !in d.scc[j..])
    ensures Contradictory(g)
  {
    hide TreeOk, NewLow, Edge, Reach;
    assert p in d.scc;
    var i :| 0 <= i < |d.scc| && d.scc[i] == p;
    assert i <= j;
    StackSegment(d, p, i);
    var s := From(d.scc, i);
    assert EntryOf(g, d, p, s);
    assert -p in s;
    SegmentIsComponent(g, d, p, s, -p);
    TreeNodes(g, d, p);
  }

  lemma TreeNodes(g: Graph, d: Tree, p: int)
    requires TreeOk(g, d) && p in d.idx
    ensures p in g.lits
  {
    hide StackOk, PathOk, PathReaches, LowOk, ChildrenVisited, Inside, Bounds, Covered, DoneClosed, FinBound;
  }

  lemma NewReprs(g: Graph, d: Tree, p: int, s: set<int>, repr: int, frozen: set<int>, reprs: map<int, int>, r: map<int, int>, done: set<int>)
    requires GraphOk(g) && Skew(g) && EntryOf(g, d, p, s) && -p !in s && repr in s && (forall z :: z in s ==> Abs(repr) <= Abs(z))
    requires ReprsOk(g, frozen, reprs, done) && (forall l :: l in s ==> l !in done)
    requires forall l :: l in s ==> l in r && r[l] == if l in frozen then l else repr
    requires forall l :: l in reprs && l !in s ==> l in r && r[l] == reprs[l]
    ensures ReprsOk(g, frozen, r, done + s)
  {
    hide EntryOf, GraphOk, Skew, IsRepr, Mutual;
    forall l | l in s
      ensures IsRepr(g, frozen, l, r[l]) && !Mutual(g, l, -l)
    {
      ComponentReprs(g, d, p, s, repr, frozen, l);
    }
  }

  lemma StartWork(g: Graph, d: Tree, root: int, open: seq<int>)
    requires WorkOk(g, d, [], open) && root in g.lits && d.path == []
    ensures WorkOk(g, d, [root], open) && open == []
  {
  }

  lemma EmptyWork(g: Graph, d: Tree, work: seq<int>, open: seq<int>)
    requires TreeOk(g, d) && WorkOk(g, d, work, open) && work == []
    ensures d.path == [] && forall x :: x in d.idx ==> x in d.done
  {
    hide Waiting, Ladder, PathReaches, LowOk, ChildrenVisited, Inside, Bounds, Covered, DoneClosed, FinBound;
    assert d.path == [];
    forall x | x in d.idx
      ensures x in d.done
    {
      assert x !in d.scc;
    }
  }

  lemma DoneOffPath(g: Graph, d: Tree, x: int)
    requires TreeOk(g, d) && x in d.done
    ensures x in d.idx && x !in d.path
  {
    hide PathReaches, LowOk, ChildrenVisited, Inside, Bounds, Covered, DoneClosed, FinBound;
  }
}
