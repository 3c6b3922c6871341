/** The extension stack: removed clauses with their witness literals, and the backward walk that
    turns a model of the simplified formula into one of the original. */
module Extension {
  import opened Cnf

  /** Make literal `l` true. */
  function SetTrue(m: set<int>, l: int): set<int> {
    if l > 0 then m + {l} else m - {-l}
  }

  datatype Entry = Entry(wit: seq<int>, clause: seq<int>)

  predicate Proper(ls: seq<int>) {
    forall i :: 0 <= i < |ls| ==> ls[i] != 0
  }

  predicate True(m: set<int>, ls: seq<int>) {
    exists l :: l in ls && Holds(m, l)
  }

  /** Flips the false witness literals, last one first. */
  function Flip(m: set<int>, ls: seq<int>): set<int>
    decreases |ls|
  {
    if ls == [] then m
    else
      var l := ls[|ls| - 1];
      Flip(if Holds(m, l) then m else SetTrue(m, l), ls[..|ls| - 1])
  }

  function Undo(m: set<int>, e: Entry): set<int> {
    if True(m, e.clause) then m else Flip(m, e.wit)
  }

  /** The meaning of the walk: entries are undone from the last pushed to the first. */
  function Reconstruct(es: seq<Entry>, m: set<int>): set<int>
    decreases |es|
  {
    if es == [] then m else Reconstruct(es[..|es| - 1], Undo(m, es[|es| - 1]))
  }

  /** The stack itself: each entry is a zero, the witness, a zero, the clause. */
  function Flat(es: seq<Entry>): seq<int> {
    if es == [] then []
    else
      var e := es[|es| - 1];
      Flat(es[..|es| - 1]) + [0] + e.wit + [0] + e.clause
  }

  method PushEntry(stack: seq<int>, e: Entry, ghost es: seq<Entry>) returns (t: seq<int>)
    requires stack == Flat(es)
    ensures t == Flat(es + [e])
  {
    t := stack + [0];
    t := t + e.wit;
    t := t + [0];
    t := t + e.clause;
    assert (es + [e])[..|es|] == es;
  }

  /** The segment `c` lies between the zero at `lo` and position `hi`. */
  ghost predicate Segment(stack: seq<int>, lo: int, hi: int, c: seq<int>) {
    && 0 <= lo < hi <= |stack| && hi == lo + 1 + |c| && stack[lo] == 0
    && forall p :: 0 <= p < |c| ==> stack[lo + 1 + p] == c[p] && c[p] != 0
  }

  lemma SegmentInside(stack: seq<int>, lo: int, hi: int, c: seq<int>, i: int)
    requires Segment(stack, lo, hi, c) && lo <= i < hi
    ensures stack[i] == 0 ==> i == lo
  {
    if i > lo {
      assert stack[lo + 1 + (i - lo - 1)] == c[i - lo - 1];
    }
  }

  /** Walks back over a clause and reports whether one of its literals is true. */
  method ScanClause(stack: seq<int>, hi: int, vals: set<int>, ghost lo: int, ghost c: seq<int>) returns (i: int, satisfied: bool)
    requires Segment(stack, lo, hi, c)
    ensures i == lo && (satisfied <==> True(vals, c))
  {
    satisfied := false;
    i := hi - 1;
    while stack[i] != 0
      invariant lo <= i < hi
      invariant satisfied <==> True(vals, c[i - lo..])
      decreases i
    {
      assert stack[lo + 1 + (i - lo - 1)] == c[i - lo - 1];
      TrueCons(vals, c, i - lo - 1);
      if !satisfied && Holds(vals, stack[i]) {
        satisfied := true;
      }
      i := i - 1;
    }
    SegmentInside(stack, lo, hi, c, i);
    assert c[0..] == c;
  }

  /** Walks back over a witness, flipping its false literals unless the clause was satisfied. */
  method FlipWitness(stack: seq<int>, hi: int, satisfied: bool, start: set<int>, ghost lo: int, ghost w: seq<int>)
    returns (i: int, vals: set<int>)
    requires Segment(stack, lo, hi, w)
    ensures i == lo && vals == if satisfied then start else Flip(start, w)
  {
    vals := start;
    i := hi - 1;
    assert w[..|w|] == w;
    while stack[i] != 0
      invariant lo <= i < hi
      invariant satisfied ==> vals == start
      invariant !satisfied ==> Flip(vals, w[..i - lo]) == Flip(start, w)
      decreases i
    {
      ghost var p := i - lo - 1;
      assert stack[lo + 1 + p] == w[p];
      assert w[..p + 1][..p] == w[..p];
      if !satisfied && !Holds(vals, stack[i]) {
        vals := SetTrue(vals, stack[i]);
      }
      i := i - 1;
    }
    SegmentInside(stack, lo, hi, w, i);
  }

  /** The backward loop over the flat stack computes the reconstruction. */
  method Extend(stack: seq<int>, m: set<int>, ghost es: seq<Entry>) returns (vals: set<int>)
    requires stack == Flat(es) && forall k :: 0 <= k < |es| ==> Proper(es[k].wit) && Proper(es[k].clause)
    ensures vals == Reconstruct(es, m)
  {
    hide Proper, Segment, Flip, True;
    vals := m;
    var i := |stack|;
    ghost var left := es;
    assert stack[..i] == stack;
    while i != 0
      invariant 0 <= i <= |stack| && left <= es && stack[..i] == Flat(left)
      invariant Reconstruct(left, vals) == Reconstruct(es, m)
      decreases |left|
    {
      assert left != [];
      ghost var e := left[|left| - 1];
      assert e == es[|left| - 1];
      ghost var pre := left[..|left| - 1];
      ghost var base := Flat(pre);
      EntryLayout(stack, i, base, e);
      var satisfied;
      i, satisfied := ScanClause(stack, i, vals, |base| + 1 + |e.wit|, e.clause);
      i, vals := FlipWitness(stack, i, satisfied, vals, |base|, e.wit);
      left := pre;
    }
    FlatEmpty(left);
  }

  lemma TrueCons(m: set<int>, c: seq<int>, p: int)
    requires 0 <= p < |c|
    ensures True(m, c[p..]) <==> Holds(m, c[p]) || True(m, c[p + 1..])
  {
    assert c[p..] == [c[p]] + c[p + 1..];
  }

  lemma FlatEmpty(es: seq<Entry>)
    requires Flat(es) == []
    ensures es == []
  {
  }

  /** Positions of the parts of the last entry. */
  lemma EntryLayout(stack: seq<int>, i: int, base: seq<int>, e: Entry)
    requires 0 <= i <= |stack| && stack[..i] == base + [0] + e.wit + [0] + e.clause
    requires Proper(e.wit) && Proper(e.clause)
    ensures stack[..|base|] == base
    ensures Segment(stack, |base| + 1 + |e.wit|, i, e.clause) && Segment(stack, |base|, |base| + 1 + |e.wit|, e.wit)
  {
    var s := stack[..i];
    forall p | 0 <= p < |e.wit|
      ensures stack[|base| + 1 + p] == e.wit[p]
    {
      assert s[|base| + 1 + p] == e.wit[p];
    }
    var lo := |base| + 1 + |e.wit|;
    forall p | 0 <= p < |e.clause|
      ensures stack[lo + 1 + p] == e.clause[p]
    {
      assert s[lo + 1 + p] == e.clause[p];
    }
    assert s[|base|] == 0 && s[lo] == 0;
    assert s[..|base|] == base;
  }

  // ----- recovering models -----

  /** Running the entries backward turns every model of `g` into one of `f`. */
  ghost predicate Recovers(g: set<Clause>, f: set<Clause>, es: seq<Entry>) {
    forall m :: Models(m, g) ==> Models(Reconstruct(es, m), f)
  }

  lemma {:induction false} ReconstructConcat(xs: seq<Entry>, ys: seq<Entry>, m: set<int>)
    ensures Reconstruct(xs + ys, m) == Reconstruct(xs, Reconstruct(ys, m))
    decreases |ys|
  {
    if ys == [] {
      assert xs + ys == xs;
    } else {
      var e := ys[|ys| - 1];
      assert (xs + ys)[..|xs + ys| - 1] == xs + ys[..|ys| - 1];
      ReconstructConcat(xs, ys[..|ys| - 1], Undo(m, e));
    }
  }

  /** Removals compose: later entries are undone first. */
  lemma RecoversTrans(h: set<Clause>, g: set<Clause>, f: set<Clause>, es: seq<Entry>, more: seq<Entry>)
    requires Recovers(g, f, es) && Recovers(h, g, more)
    ensures Recovers(h, f, es + more)
  {
    forall m | Models(m, h)
      ensures Models(Reconstruct(es + more, m), f)
    {
      ReconstructConcat(es, more, m);
    }
  }

  /** A whole history of simplifications, each recovered by the entries it pushed. */
  ghost predicate History(fs: seq<set<Clause>>, pushed: seq<seq<Entry>>) {
    |fs| == |pushed| + 1 && forall i :: 0 <= i < |pushed| ==> Recovers(fs[i + 1], fs[i], pushed[i])
  }

  function Concat(pushed: seq<seq<Entry>>): seq<Entry> {
    if pushed == [] then [] else Concat(pushed[..|pushed| - 1]) + pushed[|pushed| - 1]
  }

  lemma {:induction false} HistoryRecovers(fs: seq<set<Clause>>, pushed: seq<seq<Entry>>)
    requires History(fs, pushed)
    ensures Recovers(fs[|fs| - 1], fs[0], Concat(pushed))
    decreases |pushed|
  {
    hide Recovers;
    if pushed == [] {
      RecoversNothing(fs[0]);
    } else {
      var n := |pushed| - 1;
      HistoryRecovers(fs[..n + 1], pushed[..n]);
      assert fs[..n + 1][0] == fs[0] && fs[..n + 1][n] == fs[n];
      RecoversTrans(fs[n + 1], fs[n], fs[0], Concat(pushed[..n]), pushed[n]);
    }
  }

  lemma RecoversNothing(f: set<Clause>)
    ensures Recovers(f, f, [])
  {
  }

  // ----- one-literal witnesses -----

  function Lits(c: seq<int>): Clause {
    set l | l in c
  }

  function ClausesOf(ts: seq<seq<int>>): set<Clause> {
    set t | t in ts :: Lits(t)
  }

  predicate NoDuplicates(c: seq<int>) {
    forall i, j :: 0 <= i < j < |c| ==> c[i] != c[j]
  }

  lemma {:induction false} LitsSize(c: seq<int>)
    requires NoDuplicates(c)
    ensures |Lits(c)| == |c|
  {
    if c != [] {
      var n := |c| - 1;
      LitsSize(c[..n]);
      assert c == c[..n] + [c[n]];
      assert Lits(c) == Lits(c[..n]) + {c[n]};
      assert c[n] !in Lits(c[..n]);
    }
  }

  lemma LitsAdd(c: seq<int>, l: int)
    ensures Lits(c + [l]) == Lits(c) + {l}
  {
  }

  lemma TrueIsSatisfies(m: set<int>, c: seq<int>)
    ensures True(m, c) <==> Satisfies(m, Lits(c))
  {
    if True(m, c) {
      var l :| l in c && Holds(m, l);
      assert l in Lits(c);
    }
  }

  lemma SetTrueHolds(m: set<int>, w: int, l: int)
    requires w != 0 && l != 0
    ensures Holds(SetTrue(m, w), l) <==> l == w || (l != -w && Holds(m, l))
  {
  }

  /** Some literal of the clause other than `p` is true. */
  ghost predicate Rest(m: set<int>, cl: Clause, p: int) {
    exists l :: l in cl && l != p && Holds(m, l)
  }

  lemma RestIgnoresPivot(m: set<int>, w: int, cl: Clause, p: int)
    requires (w == p || w == -p) && p != 0 && p in cl && -p !in cl && forall l :: l in cl ==> l != 0
    ensures Rest(SetTrue(m, w), cl, p) <==> Rest(m, cl, p)
    ensures Satisfies(m, cl) <==> Holds(m, p) || Rest(m, cl, p)
  {
    forall l | l in cl && l != p
      ensures Holds(SetTrue(m, w), l) <==> Holds(m, l)
    {
      SetTrueHolds(m, w, l);
    }
  }

  /** Entries that share one witness literal occurring in all their clauses set it true exactly
      when one of the clauses is false. */
  ghost predicate Uniform(es: seq<Entry>, w: int) {
    forall k :: 0 <= k < |es| ==> es[k].wit == [w] && w in es[k].clause
  }

  lemma {:induction false} UniformReconstruct(es: seq<Entry>, w: int, m: set<int>)
    requires Uniform(es, w) && w != 0
    ensures Reconstruct(es, m) == if exists k :: 0 <= k < |es| && !True(m, es[k].clause) then SetTrue(m, w) else m
    decreases |es|
  {
    if es != [] {
      var n := |es| - 1;
      var e := es[n];
      var m' := Undo(m, e);
      UniformReconstruct(es[..n], w, m');
      if !True(m, e.clause) {
        FlipSingle(m, w, e.clause);
        assert m' == SetTrue(m, w) && Holds(m', w);
        forall k | 0 <= k < n
          ensures True(m', es[..n][k].clause)
        {
          assert w in es[k].clause;
        }
      } else {
        assert m' == m;
        assert (exists k :: 0 <= k < |es| && !True(m, es[k].clause)) <==> (exists k :: 0 <= k < n && !True(m, es[..n][k].clause));
      }
    }
  }

  lemma FlipSingle(m: set<int>, w: int, c: seq<int>)
    requires w != 0 && w in c && !True(m, c)
    ensures Flip(m, [w]) == SetTrue(m, w)
  {
    assert !Holds(m, w);
    assert [w][..0] == [];
    assert Flip(SetTrue(m, w), []) == SetTrue(m, w);
  }
}
