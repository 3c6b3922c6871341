/** The binary implication graph: literals as nodes, one edge per literal of a binary clause. */
module Graph {
  import opened Cnf

  datatype Graph = Graph(lits: set<int>, succ: map<int, seq<int>>)

  ghost predicate GraphOk(g: Graph) {
    && (forall p :: p in g.lits <==> p in g.succ)
    && (forall p, c :: p in g.lits && c in g.succ[p] ==> c in g.lits)
  }

  ghost predicate Edge(g: Graph, p: int, c: int) {
    p in g.lits && p in g.succ && c in g.succ[p]
  }

  ghost predicate Path(g: Graph, xs: seq<int>) {
    |xs| > 0 && xs[0] in g.lits && forall i :: 0 <= i < |xs| - 1 ==> Edge(g, xs[i], xs[i + 1])
  }

  ghost predicate Connects(g: Graph, xs: seq<int>, p: int, q: int) {
    Path(g, xs) && xs[0] == p && xs[|xs| - 1] == q
  }

  ghost predicate Reach(g: Graph, p: int, q: int) {
    exists xs :: Connects(g, xs, p, q)
  }

  ghost predicate Mutual(g: Graph, p: int, q: int) {
    Reach(g, p, q) && Reach(g, q, p)
  }

  lemma ReachRefl(g: Graph, p: int)
    requires p in g.lits
    ensures Reach(g, p, p)
  {
    assert Connects(g, [p], p, p);
  }

  lemma ReachEdge(g: Graph, p: int, c: int)
    requires Edge(g, p, c)
    ensures Reach(g, p, c)
  {
    assert Connects(g, [p, c], p, c);
  }

  lemma ReachTrans(g: Graph, p: int, q: int, r: int)
    requires Reach(g, p, q) && Reach(g, q, r)
    ensures Reach(g, p, r)
  {
    var xs :| Connects(g, xs, p, q);
    var ys :| Connects(g, ys, q, r);
    var zs := xs + ys[1..];
    forall i | 0 <= i < |zs| - 1
      ensures Edge(g, zs[i], zs[i + 1])
    {
      if i >= |xs| - 1 {
        var k := i - (|xs| - 1);
        assert zs[i] == ys[k] && zs[i + 1] == ys[k + 1];
      } else {
        assert zs[i] == xs[i] && zs[i + 1] == xs[i + 1];
      }
    }
    assert Connects(g, zs, p, r);
  }

  /** Nothing outside a set closed under edges is reachable from it. */
  lemma {:induction false} ClosedReach(g: Graph, s: set<int>, xs: seq<int>, n: nat)
    requires Path(g, xs) && xs[0] in s && n < |xs| && forall p, c :: p in s && Edge(g, p, c) ==> c in s
    ensures xs[n] in s
  {
    if n > 0 {
      ClosedReach(g, s, xs, n - 1);
      assert Edge(g, xs[n - 1], xs[n - 1 + 1]);
    }
  }

  lemma ReachStays(g: Graph, s: set<int>, p: int, q: int)
    requires p in s && Reach(g, p, q) && forall x, c :: x in s && Edge(g, x, c) ==> c in s
    ensures q in s
  {
    var xs :| Connects(g, xs, p, q);
    ClosedReach(g, s, xs, |xs| - 1);
  }

  // ----- skew symmetry -----

  /** Contraposition: the graph of binary clauses has an edge for both directions. */
  ghost predicate Skew(g: Graph) {
    && (forall p :: p in g.lits ==> -p in g.lits)
    && (forall p, c :: Edge(g, p, c) ==> Edge(g, -c, -p))
  }

  function Mirror(xs: seq<int>): (r: seq<int>)
    ensures |r| == |xs| && forall i :: 0 <= i < |xs| ==> r[i] == -xs[|xs| - 1 - i]
  {
    seq(|xs|, i requires 0 <= i < |xs| => -xs[|xs| - 1 - i])
  }

  lemma ReachMirror(g: Graph, p: int, q: int)
    requires GraphOk(g) && Skew(g) && Reach(g, p, q)
    ensures Reach(g, -q, -p)
  {
    var xs :| Connects(g, xs, p, q);
    var n := |xs|;
    var ys := Mirror(xs);
    LastIsNode(g, xs);
    forall i | 0 <= i < n - 1
      ensures Edge(g, ys[i], ys[i + 1])
    {
      var k := n - 2 - i;
      assert Edge(g, xs[k], xs[k + 1]);
    }
    assert Connects(g, ys, -q, -p);
  }

  lemma LastIsNode(g: Graph, xs: seq<int>)
    requires GraphOk(g) && Path(g, xs)
    ensures xs[|xs| - 1] in g.lits
  {
    var n := |xs| - 1;
    if n > 0 {
      assert Edge(g, xs[n - 1], xs[n - 1 + 1]);
    }
  }

  lemma MutualTrans(g: Graph, p: int, q: int, r: int)
    requires Mutual(g, p, q) && Mutual(g, q, r)
    ensures Mutual(g, p, r)
  {
    ReachTrans(g, p, q, r);
    ReachTrans(g, r, q, p);
  }

  lemma MutualMirror(g: Graph, p: int, q: int)
    requires GraphOk(g) && Skew(g) && Mutual(g, p, q)
    ensures Mutual(g, -p, -q)
  {
    ReachMirror(g, p, q);
    ReachMirror(g, q, p);
  }

  /** A component with complementary literals contains the negation of each of its members. */
  lemma ComplementSpreads(g: Graph, p: int, x: int)
    requires GraphOk(g) && Skew(g) && Mutual(g, p, x) && Mutual(g, p, -x)
    ensures Mutual(g, p, -p)
  {
    MutualMirror(g, p, x);
    MutualTrans(g, p, -x, -p);
  }

  // ----- meaning -----

  /** Every edge is an implication of the formula. */
  ghost predicate Implications(f: set<Clause>, g: Graph) {
    forall p, c :: Edge(g, p, c) ==> p != 0 && {-p, c} in f
  }

  lemma {:induction false} PathImplies(f: set<Clause>, g: Graph, xs: seq<int>, n: nat, m: set<int>)
    requires Implications(f, g) && Path(g, xs) && n < |xs| && Models(m, f) && Holds(m, xs[0])
    ensures Holds(m, xs[n])
  {
    if n > 0 {
      PathImplies(f, g, xs, n - 1, m);
      var p, c := xs[n - 1], xs[n - 1 + 1];
      assert Edge(g, p, c);
      var cl: Clause := {-p, c};
      assert Satisfies(m, cl);
    }
  }

  /** Mutually reachable literals have the same value in every model. */
  lemma MutualEqual(f: set<Clause>, g: Graph, p: int, q: int, m: set<int>)
    requires Implications(f, g) && Mutual(g, p, q) && Models(m, f)
    ensures Holds(m, p) <==> Holds(m, q)
  {
    var xs :| Connects(g, xs, p, q);
    var ys :| Connects(g, ys, q, p);
    if Holds(m, p) {
      PathImplies(f, g, xs, |xs| - 1, m);
    }
    if Holds(m, q) {
      PathImplies(f, g, ys, |ys| - 1, m);
    }
  }
}
