/** Invariants of the iterative depth-first search that finds strongly connected components, and the
    proof that each of its steps keeps them. */
module Dfs {
  import opened Cnf
  import opened Graph

  /** The search state without the working stack: indices and low values of visited nodes, completely
      traversed nodes and the component stack.  For the proof: the nodes on the current search path
      and, for each finished node, the number of nodes visited when it was finished. */
  datatype Tree = Tree(
    idx: map<int, int>,
    low: map<int, int>,
    done: set<int>,
    next: int,
    scc: seq<int>,
    path: seq<int>,
    fin: map<int, int>)

  /** Visited and still on the component stack. */
  ghost predicate Live(d: Tree, x: int) {
    x in d.idx && x !in d.done
  }

  /** Live with all its successors dealt with. */
  ghost predicate Finished(d: Tree, x: int) {
    Live(d, x) && x !in d.path
  }

  ghost predicate Basics(g: Graph, d: Tree) {
    && (forall x :: x in d.idx ==> x in g.lits && x in d.low && 1 <= d.idx[x] <= d.next)
    && (forall x, y :: x in d.idx && y in d.idx && d.idx[x] == d.idx[y] ==> x == y)
    && (forall x :: x in d.done ==> x in d.idx)
    && 0 <= d.next
  }

  /** Nodes in the order of their indices. */
  ghost predicate Ascending(idx: map<int, int>, xs: seq<int>) {
    forall i, j :: 0 <= i < j < |xs| ==> xs[i] in idx && xs[j] in idx && idx[xs[i]] < idx[xs[j]]
  }

  ghost predicate OnStack(d: Tree) {
    forall x :: x in d.scc <==> Live(d, x)
  }

  ghost predicate StackOk(d: Tree) {
    OnStack(d) && Ascending(d.idx, d.scc)
  }

  /** The search path: live nodes in the order of their indices. */
  ghost predicate PathOk(d: Tree) {
    && (forall k :: 0 <= k < |d.path| ==> Live(d, d.path[k]) && d.path[k] in d.low && d.low[d.path[k]] == d.idx[d.path[k]])
    && Ascending(d.idx, d.path)
    && (d.path == [] ==> d.scc == [])
    && (forall x :: d.path != [] && Live(d, x) ==> d.idx[d.path[0]] <= d.idx[x])
  }

  /** A path node reaches every live node visited after it. */
  ghost predicate PathReaches(g: Graph, d: Tree) {
    forall k, x :: 0 <= k < |d.path| && Live(d, x) && d.path[k] in d.idx && d.idx[x] >= d.idx[d.path[k]] ==> Reach(g, d.path[k], x)
  }

  /** The low value of `x` is the index of a live node that it reaches. */
  ghost predicate LowWitness(g: Graph, d: Tree, x: int, v: int) {
    exists w :: Live(d, w) && d.idx[w] == v && Reach(g, x, w)
  }

  ghost predicate LowOk(g: Graph, d: Tree) {
    forall x :: Finished(d, x) ==> x in d.low && d.low[x] < d.idx[x] && LowWitness(g, d, x, d.low[x])
  }

  ghost predicate ChildrenVisited(g: Graph, d: Tree) {
    forall x, c :: Finished(d, x) && Edge(g, x, c) ==> c in d.idx
  }

  /** Node `y` was visited while `t` was being searched. */
  ghost predicate During(d: Tree, t: int, y: int) {
    t in d.idx && t in d.fin && y in d.idx && d.idx[t] <= d.idx[y] <= d.fin[t]
  }

  /** What was visited during the search of a finished node is finished too. */
  ghost predicate Inside(d: Tree) {
    forall t, y :: Finished(d, t) && Live(d, y) && During(d, t, y) ==> y !in d.path
  }

  ghost predicate LowBelow(d: Tree, t: int, z: int) {
    t in d.low && z in d.idx && d.low[t] <= d.idx[z]
  }

  /** The low value of a finished node bounds every edge that leaves its part of the search. */
  ghost predicate Bounds(g: Graph, d: Tree) {
    forall t, y, z :: Finished(d, t) && Live(d, y) && During(d, t, y) && Edge(g, y, z) && Live(d, z) ==> LowBelow(d, t, z)
  }

  /** Node `y` belongs to a finished successor `t` of the last path node before `y`. */
  ghost predicate Below(g: Graph, d: Tree, k: int, t: int, y: int) {
    && 0 <= k < |d.path| && d.path[k] in d.idx && Edge(g, d.path[k], t) && Finished(d, t) && During(d, t, y)
    && d.idx[d.path[k]] < d.idx[t] && (k + 1 < |d.path| ==> d.path[k + 1] in d.idx && d.idx[y] < d.idx[d.path[k + 1]])
  }

  ghost predicate Covered(g: Graph, d: Tree) {
    forall y :: Finished(d, y) ==> exists k, t :: Below(g, d, k, t, y)
  }

  ghost predicate DoneClosed(g: Graph, d: Tree) {
    forall x, c :: x in d.done && Edge(g, x, c) ==> c in d.done
  }

  ghost predicate FinBound(d: Tree) {
    forall x :: x in d.fin ==> d.fin[x] <= d.next
  }

  ghost predicate TreeOk(g: Graph, d: Tree) {
    && Basics(g, d) && StackOk(d) && PathOk(d) && PathReaches(g, d) && LowOk(g, d) && ChildrenVisited(g, d)
    && Inside(d) && Bounds(g, d) && Covered(g, d) && DoneClosed(g, d) && FinBound(d)
  }

  // ----- the working stack -----

  /** Where the nodes of the path lie on the working stack. */
  ghost predicate OpenOk(path: seq<int>, work: seq<int>, open: seq<int>) {
    && |open| == |path|
    && (forall k :: 0 <= k < |open| ==> 0 <= open[k] < |work| && work[open[k]] == path[k])
    && (forall k, h :: 0 <= k < h < |open| ==> open[k] < open[h])
    && (forall k, r :: 0 <= k < |open| && 0 <= r < |work| && open[k] < r ==> work[r] != path[k])
    && (if open == [] then |work| <= 1 else open[0] == 0)
  }

  ghost predicate Above(work: seq<int>, q: int, c: int) {
    exists r :: 0 <= r < |work| && q < r && work[r] == c
  }

  /** Unvisited successors of a path node wait above it. */
  ghost predicate Waiting(g: Graph, d: Tree, work: seq<int>, open: seq<int>) {
    forall k, c :: 0 <= k < |open| && k < |d.path| && Edge(g, d.path[k], c) && c !in d.idx ==> Above(work, open[k], c)
  }

  /** Position of the next path node on the working stack, or its top. */
  function Limit(work: seq<int>, open: seq<int>, k: int): int {
    if 0 <= k < |open| - 1 then open[k + 1] else |work| - 1
  }

  /** Everything between a path node and the next one is a successor of the former. */
  ghost predicate Ladder(g: Graph, path: seq<int>, work: seq<int>, open: seq<int>) {
    forall k, r :: 0 <= k < |open| && k < |path| && 0 <= r < |work| && open[k] < r <= Limit(work, open, k) ==>
      Edge(g, path[k], work[r])
  }

  ghost predicate WorkOk(g: Graph, d: Tree, work: seq<int>, open: seq<int>) {
    && OpenOk(d.path, work, open) && Waiting(g, d, work, open) && Ladder(g, d.path, work, open)
    && forall i :: 0 <= i < |work| ==> work[i] in g.lits
  }

  /** Removing a visited node that is not on the path from the working stack. */
  lemma PopKeeps(g: Graph, d: Tree, work: seq<int>, open: seq<int>)
    requires WorkOk(g, d, work, open) && work != [] && work[|work| - 1] in d.idx && work[|work| - 1] !in d.path
    ensures WorkOk(g, d, work[..|work| - 1], open)
  {
    PopPositionsOff(d.path, work, open);
    PopWaitingOff(g, d, work, open);
    PopLadderOff(g, d.path, work, open);
    hide OpenOk, Waiting, Ladder;
  }

  lemma PopPositionsOff(path: seq<int>, work: seq<int>, open: seq<int>)
    requires OpenOk(path, work, open) && work != [] && work[|work| - 1] !in path
    ensures OpenOk(path, work[..|work| - 1], open)
  {
    forall k | 0 <= k < |open|
      ensures open[k] < |work| - 1
    {
      assert work[open[k]] == path[k];
    }
  }

  lemma PopWaitingOff(g: Graph, d: Tree, work: seq<int>, open: seq<int>)
    requires Waiting(g, d, work, open) && work != [] && work[|work| - 1] in d.idx
    ensures Waiting(g, d, work[..|work| - 1], open)
  {
    hide Edge;
    var rest := work[..|work| - 1];
    forall k, c | 0 <= k < |open| && k < |d.path| && Edge(g, d.path[k], c) && c !in d.idx
      ensures Above(rest, open[k], c)
    {
      assert Above(work, open[k], c);
      var r :| 0 <= r < |work| && open[k] < r && work[r] == c;
      assert rest[r] == c;
    }
  }

  lemma PopLadderOff(g: Graph, path: seq<int>, work: seq<int>, open: seq<int>)
    requires Ladder(g, path, work, open) && work != []
    ensures Ladder(g, path, work[..|work| - 1], open)
  {
    hide Edge;
    var rest := work[..|work| - 1];
    forall k, r | 0 <= k < |open| && k < |path| && 0 <= r < |rest| && open[k] < r <= Limit(rest, open, k)
      ensures Edge(g, path[k], rest[r])
    {
      assert r <= Limit(work, open, k);
      assert Edge(g, path[k], work[r]);
    }
  }

  // ----- visiting a node -----

  function Visited(d: Tree, x: int): Tree {
    d.(idx := d.idx[x := d.next + 1], low := d.low[x := d.next + 1], next := d.next + 1, scc := d.scc + [x], path := d.path + [x])
  }

  /** The last path node, if any, has an edge to `x`. */
  ghost predicate Hangs(g: Graph, d: Tree, x: int) {
    d.path != [] ==> Edge(g, d.path[|d.path| - 1], x)
  }

  lemma VisitLive(d: Tree, x: int)
    requires x !in d.idx && (forall y :: y in d.done ==> y in d.idx)
    ensures forall y :: Live(Visited(d, x), y) <==> Live(d, y) || y == x
    ensures forall y :: Finished(Visited(d, x), y) <==> Finished(d, y)
  {
    var e := Visited(d, x);
    forall y
      ensures Finished(e, y) <==> Finished(d, y)
    {
      assert y in e.path <==> y in d.path || y == x;
    }
  }

  lemma AscendingMore(idx: map<int, int>, xs: seq<int>, x: int, v: int)
    requires Ascending(idx, xs) && x !in idx && (forall i :: 0 <= i < |xs| ==> xs[i] in idx) && (forall y :: y in idx ==> idx[y] < v)
    ensures Ascending(idx[x := v], xs + [x])
  {
    var idx', ys := idx[x := v], xs + [x];
    forall i, j | 0 <= i < j < |ys|
      ensures ys[i] in idx' && ys[j] in idx' && idx'[ys[i]] < idx'[ys[j]]
    {
      assert ys[i] == xs[i];
      if j < |xs| {
        assert ys[j] == xs[j];
      }
    }
  }

  lemma VisitBasics(g: Graph, d: Tree, x: int)
    requires Basics(g, d) && DoneClosed(g, d) && FinBound(d) && x in g.lits && x !in d.idx
    ensures var e := Visited(d, x); Basics(g, e) && DoneClosed(g, e) && FinBound(e)
  {
    hide Edge;
  }

  lemma VisitStack(g: Graph, d: Tree, x: int)
    requires Basics(g, d) && StackOk(d) && x !in d.idx
    ensures StackOk(Visited(d, x))
  {
    VisitLive(d, x);
    var e := Visited(d, x);
    forall i | 0 <= i < |d.scc|
      ensures d.scc[i] in d.idx
    {
      assert Live(d, d.scc[i]);
    }
    AscendingMore(d.idx, d.scc, x, d.next + 1);
    hide Ascending, Live;
    forall y
      ensures y in e.scc <==> Live(e, y)
    {
      assert y in e.scc <==> y in d.scc || y == x;
    }
  }

  lemma VisitPath(g: Graph, d: Tree, x: int)
    requires Basics(g, d) && StackOk(d) && PathOk(d) && x in g.lits && x !in d.idx
    ensures PathOk(Visited(d, x))
  {
    VisitLive(d, x);
    var e := Visited(d, x);
    assert forall k :: 0 <= k < |d.path| ==> Live(d, d.path[k]);
    AscendingMore(d.idx, d.path, x, d.next + 1);
    forall k | 0 <= k < |e.path|
      ensures Live(e, e.path[k]) && e.low[e.path[k]] == e.idx[e.path[k]]
    {
      assert k < |d.path| ==> Live(d, d.path[k]);
    }
    forall y | Live(e, y)
      ensures e.idx[e.path[0]] <= e.idx[y]
    {
      if d.path == [] {
        assert y !in d.scc;
      } else {
        assert Live(d, d.path[0]);
      }
    }
  }

  lemma VisitReaches(g: Graph, d: Tree, x: int)
    requires GraphOk(g) && TreeOk(g, d) && x in g.lits && x !in d.idx && Hangs(g, d, x)
    ensures PathReaches(g, Visited(d, x))
  {
    hide LowOk, ChildrenVisited, Bounds, Covered, DoneClosed, Reach;
    var e := Visited(d, x);
    forall k, y | 0 <= k < |e.path| && Live(e, y) && e.path[k] in e.idx && e.idx[y] >= e.idx[e.path[k]]
      ensures Reach(g, e.path[k], y)
    {
      if k == |d.path| {
        assert y == x;
        ReachRefl(g, x);
      } else if y == x {
        var last := d.path[|d.path| - 1];
        assert Live(d, last) && d.idx[d.path[k]] <= d.idx[last];
        ReachEdge(g, last, x);
        ReachTrans(g, d.path[k], last, x);
      } else {
        assert Live(d, y);
      }
    }
  }

  lemma VisitLow(g: Graph, d: Tree, x: int)
    requires Basics(g, d) && LowOk(g, d) && ChildrenVisited(g, d) && x !in d.idx
    ensures LowOk(g, Visited(d, x)) && ChildrenVisited(g, Visited(d, x))
  {
    hide Reach, Edge;
    VisitLive(d, x);
    var e := Visited(d, x);
    forall y | Finished(e, y)
      ensures LowWitness(g, e, y, e.low[y])
    {
      assert LowWitness(g, d, y, d.low[y]);
      var w :| Live(d, w) && d.idx[w] == d.low[y] && Reach(g, y, w);
      assert Live(e, w) && e.idx[w] == e.low[y];
    }
  }

  lemma VisitDuring(g: Graph, d: Tree, x: int)
    requires Basics(g, d) && FinBound(d) && x !in d.idx
    ensures forall t, y :: Finished(d, t) ==> (During(Visited(d, x), t, y) <==> During(d, t, y))
  {
  }

  lemma VisitBounds(g: Graph, d: Tree, x: int)
    requires Basics(g, d) && FinBound(d) && Inside(d) && Bounds(g, d) && ChildrenVisited(g, d) && x !in d.idx
    ensures Inside(Visited(d, x)) && Bounds(g, Visited(d, x))
  {
    VisitLive(d, x);
    VisitDuring(g, d, x);
    hide Edge, During;
    var e := Visited(d, x);
    forall t, y | Finished(e, t) && Live(e, y) && During(e, t, y)
      ensures Finished(d, y) && y !in e.path
    {
      DuringVisited(d, t, y);
    }
  }

  lemma DuringVisited(d: Tree, t: int, y: int)
    requires During(d, t, y)
    ensures y in d.idx
  {
  }

  lemma VisitCovered(g: Graph, d: Tree, x: int)
    requires Basics(g, d) && FinBound(d) && Covered(g, d) && PathOk(d) && x !in d.idx
    ensures Covered(g, Visited(d, x))
  {
    VisitLive(d, x);
    hide Edge, During, Below;
    var e := Visited(d, x);
    forall y | Finished(e, y)
      ensures exists k, t :: Below(g, e, k, t, y)
    {
      var k, t :| Below(g, d, k, t, y);
      BelowVisited(g, d, x, k, t, y);
    }
  }

  lemma BelowVisited(g: Graph, d: Tree, x: int, k: int, t: int, y: int)
    requires Basics(g, d) && FinBound(d) && PathOk(d) && x !in d.idx && Below(g, d, k, t, y)
    ensures Below(g, Visited(d, x), k, t, y)
  {
    hide Edge;
    VisitLive(d, x);
    var e := Visited(d, x);
    assert e.path[k] == d.path[k];
    assert k + 1 < |d.path| ==> e.path[k + 1] == d.path[k + 1];
  }

  lemma VisitKeeps(g: Graph, d: Tree, x: int)
    requires GraphOk(g) && TreeOk(g, d) && x in g.lits && x !in d.idx && Hangs(g, d, x)
    ensures TreeOk(g, Visited(d, x))
  {
    hide Visited, Hangs, Basics, StackOk, PathOk, PathReaches, LowOk, ChildrenVisited, Inside, Bounds, Covered, DoneClosed, FinBound;
    VisitBasics(g, d, x);
    VisitStack(g, d, x);
    VisitPath(g, d, x);
    VisitReaches(g, d, x);
    VisitLow(g, d, x);
    VisitBounds(g, d, x);
    VisitCovered(g, d, x);
  }

  /** An unvisited node on top of the working stack hangs below the last path node. */
  lemma TopHangs(g: Graph, d: Tree, work: seq<int>, open: seq<int>)
    requires TreeOk(g, d) && WorkOk(g, d, work, open) && work != [] && work[|work| - 1] !in d.idx
    ensures Hangs(g, d, work[|work| - 1])
  {
    hide TreeOk, Waiting, Ladder, OpenOk, Edge;
    if d.path != [] {
      LastVisited(g, d);
      LadderTop(g, d.path, work, open);
    }
  }

  lemma LadderTop(g: Graph, path: seq<int>, work: seq<int>, open: seq<int>)
    requires OpenOk(path, work, open) && Ladder(g, path, work, open) && path != [] && work != [] && work[|work| - 1] != path[|path| - 1]
    ensures Edge(g, path[|path| - 1], work[|work| - 1])
  {
    hide Edge;
    var k, r := |path| - 1, |work| - 1;
    assert work[open[k]] == path[k];
    assert open[k] < r <= Limit(work, open, k);
  }

  lemma LastVisited(g: Graph, d: Tree)
    requires TreeOk(g, d) && d.path != []
    ensures d.path[|d.path| - 1] in d.idx
  {
    hide Basics, StackOk, PathReaches, LowOk, ChildrenVisited, Inside, Bounds, Covered, DoneClosed, FinBound;
    assert Live(d, d.path[|d.path| - 1]);
  }

  /** The successors of a newly visited node that are pushed. */
  ghost predicate Pushes(g: Graph, d: Tree, x: int, cs: seq<int>) {
    && (forall i :: 0 <= i < |cs| ==> Edge(g, x, cs[i]) && cs[i] !in d.idx && cs[i] != x)
    && (forall c :: Edge(g, x, c) && c !in d.idx && c != x ==> c in cs)
  }

  lemma VisitWork(g: Graph, d: Tree, work: seq<int>, open: seq<int>, cs: seq<int>)
    requires GraphOk(g) && PathOk(d) && WorkOk(g, d, work, open) && work != [] && work[|work| - 1] !in d.idx
    requires Pushes(g, d, work[|work| - 1], cs)
    ensures WorkOk(g, Visited(d, work[|work| - 1]), work + cs, open + [|work| - 1])
  {
    var n := |work| - 1;
    var x := work[n];
    var e := Visited(d, x);
    var work', open' := work + cs, open + [n];
    VisitOpen(g, d, work, open, cs);
    VisitWaiting(g, d, work, open, cs);
    assert Ladder(g, e.path, work', open') by {
      forall k, r | 0 <= k < |open'| && k < |e.path| && 0 <= r < |work'| && open'[k] < r <= Limit(work', open', k)
        ensures Edge(g, e.path[k], work'[r])
      {
        if k < |open| {
          assert r <= n;
        }
      }
    }
    forall i | 0 <= i < |work'|
      ensures work'[i] in g.lits
    {
      if i > n {
        assert Edge(g, x, cs[i - n - 1]);
      }
    }
  }

  lemma VisitOpen(g: Graph, d: Tree, work: seq<int>, open: seq<int>, cs: seq<int>)
    requires PathOk(d) && OpenOk(d.path, work, open) && work != [] && work[|work| - 1] !in d.idx && Pushes(g, d, work[|work| - 1], cs)
    ensures OpenOk(Visited(d, work[|work| - 1]).path, work + cs, open + [|work| - 1])
  {
    hide Edge;
    var n := |work| - 1;
    var path', work', open' := d.path + [work[n]], work + cs, open + [n];
    forall k | 0 <= k < |open|
      ensures open[k] < n && d.path[k] in d.idx
    {
      assert Live(d, d.path[k]) && work[open[k]] == d.path[k];
    }
    forall k, r | 0 <= k < |open'| && 0 <= r < |work'| && open'[k] < r
      ensures work'[r] != path'[k]
    {
      if r > n {
        assert work'[r] == cs[r - n - 1];
      }
    }
  }

  lemma VisitWaiting(g: Graph, d: Tree, work: seq<int>, open: seq<int>, cs: seq<int>)
    requires |open| == |d.path| && Waiting(g, d, work, open) && work != [] && work[|work| - 1] !in d.idx && Pushes(g, d, work[|work| - 1], cs)
    ensures Waiting(g, Visited(d, work[|work| - 1]), work + cs, open + [|work| - 1])
  {
    hide Edge;
    var n := |work| - 1;
    var e := Visited(d, work[n]);
    var work', open' := work + cs, open + [n];
    forall k, c | 0 <= k < |open'| && k < |e.path| && Edge(g, e.path[k], c) && c !in e.idx
      ensures Above(work', open'[k], c)
    {
      if k < |open| {
        assert Above(work, open[k], c);
        var r :| 0 <= r < |work| && open[k] < r && work[r] == c;
        assert work'[r] == c;
      } else {
        assert c in cs;
        var i :| 0 <= i < |cs| && cs[i] == c;
        assert work'[n + 1 + i] == c;
      }
    }
  }

  // ----- low values -----

  /** The least low value of `p` and its live successors. */
  ghost predicate NewLow(g: Graph, d: Tree, p: int, v: int) {
    && p in d.low && v <= d.low[p]
    && (forall c :: Edge(g, p, c) && Live(d, c) && c in d.low ==> v <= d.low[c])
    && (v == d.low[p] || exists c :: Edge(g, p, c) && Live(d, c) && c in d.low && v == d.low[c])
  }

  lemma LowAtMostIdx(g: Graph, d: Tree, z: int)
    requires TreeOk(g, d) && Live(d, z)
    ensures z in d.low && d.low[z] <= d.idx[z]
  {
    hide PathReaches, ChildrenVisited, Inside, Bounds, Covered, DoneClosed, LowWitness;
    if z in d.path {
      var k :| 0 <= k < |d.path| && d.path[k] == z;
    } else {
      assert Finished(d, z);
    }
  }

  lemma LiveLowWitness(g: Graph, d: Tree, z: int)
    requires TreeOk(g, d) && Live(d, z)
    ensures z in d.low && LowWitness(g, d, z, d.low[z])
  {
    hide PathReaches, ChildrenVisited, Inside, Bounds, Covered, DoneClosed, Reach;
    if z in d.path {
      var k :| 0 <= k < |d.path| && d.path[k] == z;
      ReachRefl(g, z);
      assert Live(d, z) && d.idx[z] == d.low[z];
    } else {
      assert Finished(d, z);
    }
  }

  lemma NewLowWitness(g: Graph, d: Tree, p: int, v: int)
    requires TreeOk(g, d) && Live(d, p) && NewLow(g, d, p, v)
    ensures LowWitness(g, d, p, v)
  {
    hide TreeOk, Reach;
    LiveLowWitness(g, d, p);
    if v != d.low[p] {
      var c :| Edge(g, p, c) && Live(d, c) && c in d.low && v == d.low[c];
      LiveLowWitness(g, d, c);
      var w :| Live(d, w) && d.idx[w] == v && Reach(g, c, w);
      ReachEdge(g, p, c);
      ReachTrans(g, p, c, w);
    }
  }

  /** Live nodes visited after the last path node only have edges to nodes of at least the new low value. */
  lemma EdgesBounded(g: Graph, d: Tree, p: int, v: int, y: int, z: int)
    requires TreeOk(g, d) && d.path != [] && p == d.path[|d.path| - 1] && NewLow(g, d, p, v)
    requires Live(d, y) && p in d.idx && d.idx[y] >= d.idx[p] && Edge(g, y, z) && Live(d, z)
    ensures v <= d.idx[z]
  {
    hide PathReaches, LowOk, ChildrenVisited, Inside, DoneClosed, StackOk, FinBound, Bounds, Covered, Edge;
    if y == p {
      LowAtMostIdx(g, d, z);
    } else {
      AfterLast(d, y);
      ChildBounded(g, d, p, v, y, z);
    }
  }

  lemma ChildBounded(g: Graph, d: Tree, p: int, v: int, y: int, z: int)
    requires PathOk(d) && Bounds(g, d) && Covered(g, d) && d.path != [] && p == d.path[|d.path| - 1] && NewLow(g, d, p, v)
    requires Finished(d, y) && p in d.idx && d.idx[y] >= d.idx[p] && Edge(g, y, z) && Live(d, z)
    ensures v <= d.idx[z]
  {
    hide Edge, PathOk, During, Bounds, Covered;
    var k, t := CoveredAt(g, d, y);
    BelowLast(g, d, k, t, y);
    BoundAt(g, d, t, y, z);
  }

  lemma CoveredAt(g: Graph, d: Tree, y: int) returns (k: int, t: int)
    requires Covered(g, d) && Finished(d, y)
    ensures Below(g, d, k, t, y)
  {
    hide Finished, Below;
    k, t :| Below(g, d, k, t, y);
  }

  lemma BoundAt(g: Graph, d: Tree, t: int, y: int, z: int)
    requires Bounds(g, d) && Finished(d, t) && Live(d, y) && During(d, t, y) && Edge(g, y, z) && Live(d, z)
    ensures t in d.low && d.low[t] <= d.idx[z]
  {
    hide Finished, During, Edge;
  }

  /** A live node visited after the last path node is not on the path. */
  lemma AfterLast(d: Tree, y: int)
    requires PathOk(d) && d.path != [] && y in d.idx && d.idx[y] > d.idx[d.path[|d.path| - 1]]
    ensures y !in d.path
  {
    forall k | 0 <= k < |d.path|
      ensures d.path[k] != y
    {
      assert k == |d.path| - 1 || d.idx[d.path[k]] < d.idx[d.path[|d.path| - 1]];
    }
  }

  lemma BelowLast(g: Graph, d: Tree, k: int, t: int, y: int)
    requires PathOk(d) && d.path != [] && Below(g, d, k, t, y) && d.idx[y] >= d.idx[d.path[|d.path| - 1]]
    ensures k == |d.path| - 1
  {
    hide Edge;
  }

  // ----- the component of an entry node -----

  /** All live nodes from index `i` on. */
  ghost predicate Segment(d: Tree, p: int, s: set<int>) {
    p in d.idx && forall y :: y in s <==> Live(d, y) && d.idx[y] >= d.idx[p]
  }

  lemma SegmentClosed(g: Graph, d: Tree, p: int, s: set<int>, y: int, z: int)
    requires TreeOk(g, d) && d.path != [] && p == d.path[|d.path| - 1] && NewLow(g, d, p, d.idx[p]) && Segment(d, p, s)
    requires (forall c :: Edge(g, p, c) ==> c in d.idx) && (y in s || y in d.done) && Edge(g, y, z)
    ensures z in s || z in d.done
  {
    hide PathReaches, LowOk, Inside, Bounds, Covered, StackOk, FinBound, Edge, NewLow;
    if y in s && z !in d.done {
      if y != p {
        AfterLast(d, y);
        assert Finished(d, y);
      }
      assert Live(d, z);
      EdgesBounded(g, d, p, d.idx[p], y, z);
    }
  }

  ghost predicate EntryOf(g: Graph, d: Tree, p: int, s: set<int>) {
    && TreeOk(g, d) && d.path != [] && p == d.path[|d.path| - 1] && p in d.idx && NewLow(g, d, p, d.idx[p]) && Segment(d, p, s)
    && forall c :: Edge(g, p, c) ==> c in d.idx
  }

  lemma StaysInSegment(g: Graph, d: Tree, p: int, s: set<int>, x: int, y: int)
    requires EntryOf(g, d, p, s) && x in s && Reach(g, x, y)
    ensures y in s || y in d.done
  {
    hide TreeOk, Segment, NewLow, Edge, Reach;
    forall a, c | a in s + d.done && Edge(g, a, c)
      ensures c in s + d.done
    {
      SegmentClosed(g, d, p, s, a, c);
    }
    ReachStays(g, s + d.done, x, y);
  }

  lemma {:induction false} SegmentReachesEntry(g: Graph, d: Tree, p: int, s: set<int>, y: int)
    requires EntryOf(g, d, p, s) && y in s
    ensures Reach(g, y, p)
    decreases d.idx[y]
  {
    hide Reach, PathReaches, Inside, Bounds, Covered, StackOk, FinBound, Edge, NewLow, ChildrenVisited, DoneClosed;
    if y == p {
      ReachRefl(g, p);
    } else {
      assert y in d.idx && d.idx[y] > d.idx[p];
      AfterLast(d, y);
      assert Finished(d, y);
      assert LowWitness(g, d, y, d.low[y]);
      var w :| Live(d, w) && d.idx[w] == d.low[y] && Reach(g, y, w);
      StaysInSegment(g, d, p, s, y, w);
      SegmentReachesEntry(g, d, p, s, w);
      ReachTrans(g, y, w, p);
    }
  }

  /** The segment above an entry node is exactly its strongly connected component. */
  lemma SegmentIsComponent(g: Graph, d: Tree, p: int, s: set<int>, y: int)
    requires EntryOf(g, d, p, s)
    ensures y in s <==> Mutual(g, p, y)
  {
    hide Reach, LowOk, Inside, Bounds, Covered, StackOk, FinBound, Edge, NewLow, ChildrenVisited;
    assert Live(d, p) && p in s;
    if y in s {
      var k := |d.path| - 1;
      assert Reach(g, d.path[k], y);
      SegmentReachesEntry(g, d, p, s, y);
    }
    if Mutual(g, p, y) {
      StaysInSegment(g, d, p, s, p, y);
      if y in d.done {
        ReachStays(g, d.done, y, p);
      }
    }
  }

  // ----- finishing a path node that is not an entry -----

  function Finish(d: Tree, p: int, v: int): Tree
    requires d.path != []
  {
    d.(low := d.low[p := v], path := d.path[..|d.path| - 1], fin := d.fin[p := d.next])
  }

  /** The last path node, all of whose successors were visited, with its new low value. */
  ghost predicate Ready(g: Graph, d: Tree, p: int, v: int) {
    && TreeOk(g, d) && d.path != [] && p == d.path[|d.path| - 1] && Live(d, p) && NewLow(g, d, p, v)
    && forall c :: Edge(g, p, c) ==> c in d.idx
  }

  lemma PathPrefix(d: Tree, p: int)
    requires PathOk(d) && d.path != [] && p == d.path[|d.path| - 1]
    ensures forall x :: x in d.path[..|d.path| - 1] <==> x in d.path && x != p
    ensures forall x :: x in d.path && x != p ==> x in d.idx && d.idx[x] < d.idx[p]
  {
    var n := |d.path| - 1;
    forall x
      ensures x in d.path[..n] <==> x in d.path && x != p
      ensures x in d.path && x != p ==> x in d.idx && d.idx[x] < d.idx[p]
    {
      if x in d.path && x != p {
        var k :| 0 <= k < |d.path| && d.path[k] == x;
        assert d.path[..n][k] == x;
      }
      if x in d.path[..n] {
        var k :| 0 <= k < n && d.path[k] == x;
        assert d.idx[d.path[k]] < d.idx[d.path[n]];
      }
    }
  }

  /** The path has an earlier node than one whose low value is smaller than its index. */
  lemma NotRoot(g: Graph, d: Tree, p: int, v: int)
    requires Ready(g, d, p, v) && v < d.idx[p]
    ensures |d.path| >= 2
  {
    hide PathReaches, LowOk, ChildrenVisited, Inside, Bounds, Covered, DoneClosed, StackOk, NewLow, Edge, Reach;
    NewLowWitness(g, d, p, v);
    var w :| Live(d, w) && d.idx[w] == v && Reach(g, p, w);
    assert d.idx[d.path[0]] <= d.idx[w];
  }

  lemma FinishLive(d: Tree, p: int, v: int)
    requires PathOk(d) && d.path != [] && p == d.path[|d.path| - 1]
    ensures forall x :: Live(Finish(d, p, v), x) <==> Live(d, x)
    ensures forall x :: Finished(Finish(d, p, v), x) <==> Finished(d, x) || x == p
  {
    PathPrefix(d, p);
    var e := Finish(d, p, v);
    assert forall x :: Live(e, x) <==> Live(d, x);
    assert Live(d, d.path[|d.path| - 1]);
    forall x
      ensures Finished(e, x) <==> Finished(d, x) || x == p
    {
    }
  }

  lemma FinishBasics(g: Graph, d: Tree, p: int, v: int)
    requires Basics(g, d) && StackOk(d) && DoneClosed(g, d) && FinBound(d) && PathOk(d) && d.path != [] && p == d.path[|d.path| - 1]
    ensures var e := Finish(d, p, v); Basics(g, e) && StackOk(e) && DoneClosed(g, e) && FinBound(e)
  {
    FinishLive(d, p, v);
    hide Live, Finished, Edge, PathOk;
  }

  lemma FinishPath(g: Graph, d: Tree, p: int, v: int)
    requires PathOk(d) && PathReaches(g, d) && |d.path| >= 2 && p == d.path[|d.path| - 1]
    ensures var e := Finish(d, p, v); PathOk(e) && PathReaches(g, e)
  {
    FinishLive(d, p, v);
    hide Reach;
    var e := Finish(d, p, v);
    assert e.path[0] == d.path[0];
    forall k | 0 <= k < |e.path|
      ensures Live(e, e.path[k]) && e.path[k] in e.low && e.low[e.path[k]] == e.idx[e.path[k]]
    {
      assert e.path[k] == d.path[k] && d.idx[d.path[k]] < d.idx[d.path[|d.path| - 1]];
    }
  }

  lemma FinishLow(g: Graph, d: Tree, p: int, v: int)
    requires LowOk(g, d) && ChildrenVisited(g, d) && PathOk(d) && d.path != [] && p == d.path[|d.path| - 1] && Live(d, p)
    requires LowWitness(g, d, p, v) && v < d.idx[p] && forall c :: Edge(g, p, c) ==> c in d.idx
    ensures LowOk(g, Finish(d, p, v)) && ChildrenVisited(g, Finish(d, p, v))
  {
    FinishLive(d, p, v);
    var e := Finish(d, p, v);
    forall y | Finished(e, y)
      ensures y in e.low && e.low[y] < e.idx[y] && LowWitness(g, e, y, e.low[y])
    {
      FinishLowAt(g, d, p, v, y);
    }
    hide PathOk, Live, Finished, LowWitness, Edge;
  }

  lemma FinishLowAt(g: Graph, d: Tree, p: int, v: int, y: int)
    requires LowOk(g, d) && d.path != [] && (Finished(d, y) || y == p) && Live(d, p)
    requires LowWitness(g, d, p, v) && v < d.idx[p]
    ensures var e := Finish(d, p, v); y in e.low && e.low[y] < e.idx[y] && LowWitness(g, e, y, e.low[y])
  {
    hide Reach;
    var e := Finish(d, p, v);
    assert LowWitness(g, d, y, e.low[y]);
    var w :| Live(d, w) && d.idx[w] == e.low[y] && Reach(g, y, w);
    assert Live(e, w) && e.idx[w] == e.low[y];
  }

  lemma FinishDuring(d: Tree, p: int, v: int, t: int, y: int)
    requires d.path != []
    ensures During(Finish(d, p, v), t, y) <==> if t == p then p in d.idx && y in d.idx && d.idx[p] <= d.idx[y] <= d.next else During(d, t, y)
  {
  }

  lemma FinishInside(d: Tree, p: int, v: int)
    requires PathOk(d) && Inside(d) && d.path != [] && p == d.path[|d.path| - 1]
    ensures Inside(Finish(d, p, v))
  {
    FinishLive(d, p, v);
    PathPrefix(d, p);
    var e := Finish(d, p, v);
    assert e.path == d.path[..|d.path| - 1];
    forall t, y | Finished(e, t) && Live(e, y) && During(e, t, y)
      ensures y !in e.path
    {
      FinishDuring(d, p, v, t, y);
      FinishInsideAt(d, p, t, y);
    }
  }

  lemma FinishInsideAt(d: Tree, p: int, t: int, y: int)
    requires PathOk(d) && Inside(d) && d.path != [] && p == d.path[|d.path| - 1] && Live(d, y)
    requires if t == p then p in d.idx && d.idx[p] <= d.idx[y] else Finished(d, t) && During(d, t, y)
    ensures y !in d.path[..|d.path| - 1]
  {
    PathPrefix(d, p);
    hide During;
  }

  lemma FinishBounds(g: Graph, d: Tree, p: int, v: int)
    requires Ready(g, d, p, v)
    ensures Bounds(g, Finish(d, p, v))
  {
    var e := Finish(d, p, v);
    hide *;
    forall t, y, z | Finished(e, t) && Live(e, y) && During(e, t, y) && Edge(g, y, z) && Live(e, z)
      ensures LowBelow(e, t, z)
    {
      FinishedBefore(g, d, p, v, t, y, z);
      FinishBoundAt(g, d, p, v, t, y, z);
    }
    BoundsIntro(g, e);
  }

  lemma FinishedBefore(g: Graph, d: Tree, p: int, v: int, t: int, y: int, z: int)
    requires Ready(g, d, p, v)
    requires var e := Finish(d, p, v); Finished(e, t) && Live(e, y) && Live(e, z)
    ensures (Finished(d, t) || t == p) && Live(d, y) && Live(d, z)
  {
    FinishLive(d, p, v);
    hide Finish, Live, Finished, Ready;
  }

  lemma FinishBoundAt(g: Graph, d: Tree, p: int, v: int, t: int, y: int, z: int)
    requires Ready(g, d, p, v) && (Finished(d, t) || t == p) && Live(d, y) && Edge(g, y, z) && Live(d, z)
    requires During(Finish(d, p, v), t, y)
    ensures LowBelow(Finish(d, p, v), t, z)
  {
    hide TreeOk, NewLow, Edge;
    FinishDuring(d, p, v, t, y);
    if t == p {
      EdgesBounded(g, d, p, v, y, z);
    } else {
      TreeBound(g, d, t, y, z);
    }
  }

  lemma TreeBound(g: Graph, d: Tree, t: int, y: int, z: int)
    requires TreeOk(g, d) && Finished(d, t) && Live(d, y) && During(d, t, y) && Edge(g, y, z) && Live(d, z)
    ensures t in d.low && d.low[t] <= d.idx[z]
  {
    hide Basics, StackOk, PathOk, PathReaches, LowOk, ChildrenVisited, Inside, Bounds, Covered, DoneClosed, FinBound;
    BoundAt(g, d, t, y, z);
  }

  lemma BoundsIntro(g: Graph, e: Tree)
    requires forall t, y, z :: Finished(e, t) && Live(e, y) && During(e, t, y) && Edge(g, y, z) && Live(e, z) ==> LowBelow(e, t, z)
    ensures Bounds(g, e)
  {
    hide Finished, During, Edge;
  }

  lemma FinishCovered(g: Graph, d: Tree, p: int, v: int)
    requires Basics(g, d) && PathOk(d) && Covered(g, d) && |d.path| >= 2 && p == d.path[|d.path| - 1] && Edge(g, d.path[|d.path| - 2], p)
    ensures Covered(g, Finish(d, p, v))
  {
    FinishLive(d, p, v);
    hide Edge, Live, Finished, Below, Basics, PathOk, Covered;
    var e := Finish(d, p, v);
    forall y | Finished(e, y)
      ensures exists k, t :: Below(g, e, k, t, y)
    {
      FinishCoveredAt(g, d, p, v, y);
    }
    CoveredIntro(g, e);
  }

  lemma CoveredIntro(g: Graph, e: Tree)
    requires forall y :: Finished(e, y) ==> exists k, t :: Below(g, e, k, t, y)
    ensures Covered(g, e)
  {
    hide Finished, Below;
  }

  lemma FinishCoveredAt(g: Graph, d: Tree, p: int, v: int, y: int)
    requires Basics(g, d) && PathOk(d) && Covered(g, d) && |d.path| >= 2 && p == d.path[|d.path| - 1] && Edge(g, d.path[|d.path| - 2], p)
    requires Finished(d, y) || y == p
    ensures exists k, t :: Below(g, Finish(d, p, v), k, t, y)
  {
    hide Edge, Below, Finish, Covered;
    assert Live(d, d.path[|d.path| - 1]);
    if d.idx[y] >= d.idx[p] {
      FinishBelowNew(g, d, p, v, y);
    } else {
      var k, t := CoveredAt(g, d, y);
      FinishBelow(g, d, p, v, k, t, y);
    }
  }

  lemma FinishBelowNew(g: Graph, d: Tree, p: int, v: int, y: int)
    requires Basics(g, d) && PathOk(d) && |d.path| >= 2 && p == d.path[|d.path| - 1] && Edge(g, d.path[|d.path| - 2], p)
    requires Live(d, y) && p in d.idx && d.idx[y] >= d.idx[p]
    ensures Below(g, Finish(d, p, v), |d.path| - 2, p, y)
  {
    hide Edge;
    var n := |d.path| - 1;
    FinishLive(d, p, v);
    assert Live(d, d.path[n - 1]);
    assert d.idx[d.path[n - 1]] < d.idx[d.path[n]];
    assert Finish(d, p, v).path[n - 1] == d.path[n - 1];
  }

  lemma FinishBelow(g: Graph, d: Tree, p: int, v: int, k: int, t: int, y: int)
    requires PathOk(d) && |d.path| >= 2 && p == d.path[|d.path| - 1] && Below(g, d, k, t, y) && d.idx[y] < d.idx[p]
    ensures Below(g, Finish(d, p, v), k, t, y)
  {
    hide Edge;
    FinishLive(d, p, v);
    var e := Finish(d, p, v);
    assert k != |d.path| - 1;
    assert e.path[k] == d.path[k];
  }

  lemma FinishKeeps(g: Graph, d: Tree, p: int, v: int)
    requires Ready(g, d, p, v) && v < d.idx[p] && (|d.path| >= 2 ==> Edge(g, d.path[|d.path| - 2], p))
    ensures TreeOk(g, Finish(d, p, v))
  {
    NotRoot(g, d, p, v);
    NewLowWitness(g, d, p, v);
    FinishBounds(g, d, p, v);
    hide Basics, StackOk, PathOk, PathReaches, LowOk, ChildrenVisited, Inside, Bounds, Covered, DoneClosed, FinBound, Edge, NewLow, LowWitness, Finish;
    FinishBasics(g, d, p, v);
    FinishPath(g, d, p, v);
    FinishLow(g, d, p, v);
    FinishInside(d, p, v);
    FinishCovered(g, d, p, v);
  }

  // ----- looking at a finished node again -----

  function Relow(d: Tree, p: int, v: int): Tree {
    d.(low := d.low[p := v])
  }

  /** A finished node met again further down the working stack may get a smaller low value. */
  lemma RelowKeeps(g: Graph, d: Tree, p: int, v: int)
    requires TreeOk(g, d) && Finished(d, p) && NewLow(g, d, p, v)
    ensures TreeOk(g, Relow(d, p, v))
  {
    NewLowWitness(g, d, p, v);
    var e := Relow(d, p, v);
    hide Basics, StackOk, PathOk, PathReaches, LowOk, ChildrenVisited, Inside, Bounds, Covered, DoneClosed, FinBound, Edge, LowWitness, Relow;
    RelowPath(g, d, p, v);
    RelowLow(g, d, p, v);
    RelowRest(g, d, p, v);
    RelowBounds(g, d, p, v);
    RelowCovered(g, d, p, v);
  }

  lemma RelowRest(g: Graph, d: Tree, p: int, v: int)
    requires Basics(g, d) && StackOk(d) && ChildrenVisited(g, d) && DoneClosed(g, d) && FinBound(d)
    ensures var e := Relow(d, p, v); Basics(g, e) && StackOk(e) && ChildrenVisited(g, e) && DoneClosed(g, e) && FinBound(e)
  {
    RelowSame(d, p, v);
    RelowStack(d, p, v);
    hide Live, Finished, Edge, StackOk;
  }

  lemma RelowStack(d: Tree, p: int, v: int)
    requires StackOk(d)
    ensures StackOk(Relow(d, p, v))
  {
    hide Ascending, Live;
    RelowSame(d, p, v);
    var e := Relow(d, p, v);
    forall x
      ensures x in e.scc <==> Live(e, x)
    {
      assert x in d.scc <==> Live(d, x);
    }
  }

  lemma RelowBounds(g: Graph, d: Tree, p: int, v: int)
    requires Inside(d) && Bounds(g, d) && p in d.low && v <= d.low[p]
    ensures Inside(Relow(d, p, v)) && Bounds(g, Relow(d, p, v))
  {
    RelowSame(d, p, v);
    assert forall t, z :: LowBelow(d, t, z) ==> LowBelow(Relow(d, p, v), t, z);
    hide Live, Finished, Edge, During, LowBelow;
  }

  lemma RelowSame(d: Tree, p: int, v: int)
    ensures forall x :: Live(Relow(d, p, v), x) <==> Live(d, x)
    ensures forall x :: Finished(Relow(d, p, v), x) <==> Finished(d, x)
    ensures forall t, y :: During(Relow(d, p, v), t, y) <==> During(d, t, y)
  {
  }

  lemma RelowPath(g: Graph, d: Tree, p: int, v: int)
    requires PathOk(d) && PathReaches(g, d) && p !in d.path
    ensures PathOk(Relow(d, p, v)) && PathReaches(g, Relow(d, p, v))
  {
    hide Reach;
    RelowSame(d, p, v);
    assert forall k :: 0 <= k < |d.path| ==> d.path[k] != p;
  }

  lemma RelowLow(g: Graph, d: Tree, p: int, v: int)
    requires LowOk(g, d) && Finished(d, p) && LowWitness(g, d, p, v) && p in d.low && v <= d.low[p]
    ensures LowOk(g, Relow(d, p, v))
  {
    hide Reach;
    RelowSame(d, p, v);
    var e := Relow(d, p, v);
    forall y | Finished(e, y)
      ensures LowWitness(g, e, y, e.low[y])
    {
      assert LowWitness(g, d, y, e.low[y]);
      var w :| Live(d, w) && d.idx[w] == e.low[y] && Reach(g, y, w);
      assert Live(e, w);
    }
  }

  lemma RelowCovered(g: Graph, d: Tree, p: int, v: int)
    requires Covered(g, d)
    ensures Covered(g, Relow(d, p, v))
  {
    RelowSame(d, p, v);
    hide Covered, Below, Finished, Live;
    var e := Relow(d, p, v);
    forall y | Finished(e, y)
      ensures exists k, t :: Below(g, e, k, t, y)
    {
      var k, t := CoveredAt(g, d, y);
      RelowBelow(g, d, p, v, k, t, y);
    }
    CoveredIntro(g, e);
  }

  lemma RelowBelow(g: Graph, d: Tree, p: int, v: int, k: int, t: int, y: int)
    requires Below(g, d, k, t, y)
    ensures Below(g, Relow(d, p, v), k, t, y)
  {
    hide Edge;
    RelowSame(d, p, v);
  }

  // ----- closing a component -----

  function Close(d: Tree, s: set<int>, j: int): Tree
    requires d.path != [] && 0 <= j <= |d.scc|
  {
    d.(done := d.done + s, scc := d.scc[..j], path := d.path[..|d.path| - 1])
  }

  ghost predicate Closable(g: Graph, d: Tree, p: int, s: set<int>, j: int) {
    EntryOf(g, d, p, s) && 0 <= j < |d.scc| && d.scc[j] == p
  }

  lemma CloseLive(g: Graph, d: Tree, p: int, s: set<int>, j: int)
    requires PathOk(d) && d.path != [] && p == d.path[|d.path| - 1] && Segment(d, p, s) && 0 <= j <= |d.scc|
    ensures forall x :: Live(Close(d, s, j), x) <==> Live(d, x) && d.idx[x] < d.idx[p]
    ensures forall x :: Finished(Close(d, s, j), x) <==> Finished(d, x) && d.idx[x] < d.idx[p]
  {
    PathPrefix(d, p);
    hide PathOk;
    var e := Close(d, s, j);
    forall x
      ensures Live(e, x) <==> Live(d, x) && d.idx[x] < d.idx[p]
      ensures Finished(e, x) <==> Finished(d, x) && d.idx[x] < d.idx[p]
    {
    }
  }

  lemma AscendingPrefix(idx: map<int, int>, xs: seq<int>, j: int, x: int)
    requires Ascending(idx, xs) && 0 <= j < |xs| && (forall i :: 0 <= i < |xs| ==> xs[i] in idx)
    ensures Ascending(idx, xs[..j])
    ensures x in xs[..j] <==> x in xs && x in idx && idx[x] < idx[xs[j]]
  {
    if x in xs[..j] {
      var i :| 0 <= i < j && xs[i] == x;
      assert idx[xs[i]] < idx[xs[j]];
    }
    if x in xs && x in idx && idx[x] < idx[xs[j]] {
      var i :| 0 <= i < |xs| && xs[i] == x;
      assert i < j;
      assert xs[..j][i] == x;
    }
  }

  lemma CloseStack(g: Graph, d: Tree, p: int, s: set<int>, j: int)
    requires Basics(g, d) && StackOk(d) && PathOk(d) && d.path != [] && p == d.path[|d.path| - 1] && Segment(d, p, s) && 0 <= j < |d.scc| && d.scc[j] == p
    ensures StackOk(Close(d, s, j)) && Basics(g, Close(d, s, j))
    ensures d.path == [p] ==> d.scc[..j] == []
  {
    CloseLive(g, d, p, s, j);
    var e := Close(d, s, j);
    forall i | 0 <= i < |d.scc|
      ensures Live(d, d.scc[i])
    {
      assert d.scc[i] in d.scc;
    }
    forall x
      ensures x in e.scc <==> Live(e, x)
    {
      AscendingPrefix(d.idx, d.scc, j, x);
      assert x in d.scc <==> Live(d, x);
    }
    AscendingPrefix(d.idx, d.scc, j, p);
    assert Basics(g, e) by {
      hide PathOk, StackOk, Ascending;
    }
    if d.path == [p] {
      RootIsLowest(d, p, j);
    }
  }

  lemma RootIsLowest(d: Tree, p: int, j: int)
    requires PathOk(d) && StackOk(d) && d.path == [p] && 0 <= j < |d.scc| && d.scc[j] == p
    ensures j == 0
  {
    assert Live(d, d.scc[0]);
  }

  lemma ClosePath(g: Graph, d: Tree, p: int, s: set<int>, j: int)
    requires PathOk(d) && PathReaches(g, d) && d.path != [] && p == d.path[|d.path| - 1] && Segment(d, p, s) && 0 <= j <= |d.scc|
    requires d.path == [p] ==> d.scc[..j] == []
    ensures PathOk(Close(d, s, j)) && PathReaches(g, Close(d, s, j))
  {
    hide Reach;
    CloseLive(g, d, p, s, j);
    var e := Close(d, s, j);
    assert forall k :: 0 <= k < |e.path| ==> e.path[k] == d.path[k];
    forall k | 0 <= k < |e.path|
      ensures Live(e, e.path[k])
    {
      assert d.idx[d.path[k]] < d.idx[d.path[|d.path| - 1]];
    }
    assert e.path == [] ==> d.path == [p];
  }

  lemma CloseLow(g: Graph, d: Tree, p: int, s: set<int>, j: int)
    requires LowOk(g, d) && ChildrenVisited(g, d) && PathOk(d) && d.path != [] && p == d.path[|d.path| - 1] && Segment(d, p, s) && 0 <= j <= |d.scc|
    ensures LowOk(g, Close(d, s, j)) && ChildrenVisited(g, Close(d, s, j))
  {
    CloseLive(g, d, p, s, j);
    hide Reach, Edge, PathOk, Finished;
    var e := Close(d, s, j);
    forall y | Finished(e, y)
      ensures y in e.low && e.low[y] < e.idx[y] && LowWitness(g, e, y, e.low[y])
    {
      assert LowWitness(g, d, y, d.low[y]);
      var w :| Live(d, w) && d.idx[w] == d.low[y] && Reach(g, y, w);
      assert Live(e, w) && e.idx[w] == e.low[y];
    }
  }

  lemma CloseDuring(d: Tree, s: set<int>, j: int)
    requires d.path != [] && 0 <= j <= |d.scc|
    ensures forall t, y :: During(Close(d, s, j), t, y) <==> During(d, t, y)
    ensures forall t, z :: LowBelow(Close(d, s, j), t, z) <==> LowBelow(d, t, z)
  {
  }

  lemma CloseBounds(g: Graph, d: Tree, p: int, s: set<int>, j: int)
    requires Inside(d) && Bounds(g, d) && PathOk(d) && d.path != [] && p == d.path[|d.path| - 1] && Segment(d, p, s) && 0 <= j <= |d.scc|
    ensures Inside(Close(d, s, j)) && Bounds(g, Close(d, s, j))
  {
    CloseLive(g, d, p, s, j);
    CloseDuring(d, s, j);
    PathPrefix(d, p);
    hide Edge, PathOk, Finished, During, LowBelow, Live;
    assert Close(d, s, j).path == d.path[..|d.path| - 1];
  }

  lemma CloseCovered(g: Graph, d: Tree, p: int, s: set<int>, j: int)
    requires Covered(g, d) && PathOk(d) && d.path != [] && p == d.path[|d.path| - 1] && Segment(d, p, s) && 0 <= j <= |d.scc|
    ensures Covered(g, Close(d, s, j))
  {
    CloseLive(g, d, p, s, j);
    hide Edge, PathOk, Covered, Below, Finished, Live, Segment;
    var e := Close(d, s, j);
    forall y | Finished(e, y)
      ensures exists k, t :: Below(g, e, k, t, y)
    {
      var k, t := CoveredAt(g, d, y);
      CloseBelow(g, d, p, s, j, k, t, y);
    }
    CoveredIntro(g, e);
  }

  lemma CloseBelow(g: Graph, d: Tree, p: int, s: set<int>, j: int, k: int, t: int, y: int)
    requires PathOk(d) && d.path != [] && p == d.path[|d.path| - 1] && Segment(d, p, s) && 0 <= j <= |d.scc|
    requires Below(g, d, k, t, y) && d.idx[y] < d.idx[p]
    ensures Below(g, Close(d, s, j), k, t, y)
  {
    CloseLive(g, d, p, s, j);
    hide Edge;
    var e := Close(d, s, j);
    assert k != |d.path| - 1;
    assert e.path[k] == d.path[k];
  }

  lemma CloseKeeps(g: Graph, d: Tree, p: int, s: set<int>, j: int)
    requires Closable(g, d, p, s, j)
    ensures TreeOk(g, Close(d, s, j))
  {
    var e := Close(d, s, j);
    assert DoneClosed(g, e) && FinBound(e) by {
      hide PathReaches, LowOk, ChildrenVisited, Inside, Bounds, Covered, NewLow, Edge, Segment, Basics, StackOk, PathOk;
      forall x, c | x in e.done && Edge(g, x, c)
        ensures c in e.done
      {
        SegmentClosed(g, d, p, s, x, c);
      }
    }
    hide Basics, StackOk, PathOk, PathReaches, LowOk, ChildrenVisited, Inside, Bounds, Covered, DoneClosed, FinBound, Edge, NewLow, Segment, Close;
    CloseStack(g, d, p, s, j);
    ClosePath(g, d, p, s, j);
    CloseLow(g, d, p, s, j);
    CloseBounds(g, d, p, s, j);
    CloseCovered(g, d, p, s, j);
  }

  // ----- the working stack after the last path node is done -----

  /** A path node on top of the working stack is the last one; its successors were all visited. */
  lemma TopOfPath(g: Graph, d: Tree, work: seq<int>, open: seq<int>)
    requires WorkOk(g, d, work, open) && work != [] && work[|work| - 1] in d.path
    ensures d.path != [] && work[|work| - 1] == d.path[|d.path| - 1] && open != [] && open[|open| - 1] == |work| - 1
    ensures forall c :: Edge(g, work[|work| - 1], c) ==> c in d.idx
    ensures |d.path| >= 2 ==> Edge(g, d.path[|d.path| - 2], work[|work| - 1])
  {
    hide Edge;
    var n := |work| - 1;
    var k :| 0 <= k < |d.path| && d.path[k] == work[n];
    assert open[k] == n;
    var last := |open| - 1;
    assert 0 <= open[last] < |work|;
    assert k == last;
    if |d.path| >= 2 {
      assert open[last - 1] < open[last];
      assert Limit(work, open, last - 1) == n;
      assert Edge(g, d.path[last - 1], work[n]);
    }
  }

  lemma PopOpen(g: Graph, d: Tree, e: Tree, work: seq<int>, open: seq<int>)
    requires WorkOk(g, d, work, open) && work != [] && d.path != [] && open[|open| - 1] == |work| - 1 && work[|work| - 1] in d.idx
    requires e.path == d.path[..|d.path| - 1] && e.idx == d.idx
    ensures WorkOk(g, e, work[..|work| - 1], open[..|open| - 1])
  {
    hide OpenOk, Waiting, Ladder;
    assert |open| == |d.path| by {
      OpenSize(d.path, work, open);
    }
    PopPositions(d.path, work, open);
    PopWaiting(g, d, e, work, open);
    PopLadder(g, d.path, work, open);
  }

  lemma OpenSize(path: seq<int>, work: seq<int>, open: seq<int>)
    requires OpenOk(path, work, open)
    ensures |open| == |path|
  {
  }

  lemma PopPositions(path: seq<int>, work: seq<int>, open: seq<int>)
    requires OpenOk(path, work, open) && work != [] && path != [] && open[|open| - 1] == |work| - 1
    ensures OpenOk(path[..|path| - 1], work[..|work| - 1], open[..|open| - 1])
  {
    var last := |open| - 1;
    forall k | 0 <= k < last
      ensures open[k] < |work| - 1
    {
      assert open[k] < open[last];
    }
  }

  lemma PopWaiting(g: Graph, d: Tree, e: Tree, work: seq<int>, open: seq<int>)
    requires Waiting(g, d, work, open) && work != [] && |open| == |d.path| > 0 && work[|work| - 1] in d.idx
    requires e.path == d.path[..|d.path| - 1] && e.idx == d.idx
    ensures Waiting(g, e, work[..|work| - 1], open[..|open| - 1])
  {
    hide Edge;
    var work', open' := work[..|work| - 1], open[..|open| - 1];
    forall k, c | 0 <= k < |open'| && k < |e.path| && Edge(g, e.path[k], c) && c !in e.idx
      ensures Above(work', open'[k], c)
    {
      assert e.path[k] == d.path[k];
      assert Above(work, open[k], c);
      var r :| 0 <= r < |work| && open[k] < r && work[r] == c;
      assert work'[r] == c;
    }
  }

  lemma PopLadder(g: Graph, path: seq<int>, work: seq<int>, open: seq<int>)
    requires |open| == |path| && Ladder(g, path, work, open) && work != [] && path != [] && open[|open| - 1] == |work| - 1
    ensures Ladder(g, path[..|path| - 1], work[..|work| - 1], open[..|open| - 1])
  {
    hide Edge;
    var path', work', open' := path[..|path| - 1], work[..|work| - 1], open[..|open| - 1];
    forall k, r | 0 <= k < |open'| && k < |path'| && 0 <= r < |work'| && open'[k] < r <= Limit(work', open', k)
      ensures Edge(g, path'[k], work'[r])
    {
      assert r <= Limit(work, open, k);
      assert Edge(g, path[k], work[r]);
    }
  }
}
