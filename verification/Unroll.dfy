/** The unrolled circuit of bounded model checking: nodes, their values, the simplifying AND, and
    the run of the original circuit that an assignment of the unrolled inputs describes. */
module Unroll {
  import opened Cnf
  import opened Circuit

  datatype Node = NullNode | FalseNode | InputNode | AndNode(a: int, b: int)

  ghost predicate NodesOk(nodes: seq<Node>) {
    && |nodes| >= 2 && nodes[0].NullNode? && nodes[1].FalseNode?
    && (forall n :: 2 <= n < |nodes| ==> nodes[n].InputNode? || nodes[n].AndNode?)
    && (forall n :: 2 <= n < |nodes| && nodes[n].AndNode? ==> IsLit(nodes[n].a, n - 1) && IsLit(nodes[n].b, n - 1))
  }

  ghost predicate NodeVal(nodes: seq<Node>, x: set<int>, n: int)
    requires NodesOk(nodes) && 1 <= n < |nodes|
    decreases n, 0
  {
    match nodes[n]
    case InputNode => n in x
    case AndNode(a, b) => LitVal(nodes, x, a) && LitVal(nodes, x, b)
    case _ => false
  }

  ghost predicate LitVal(nodes: seq<Node>, x: set<int>, l: int)
    requires NodesOk(nodes) && IsLit(l, |nodes| - 1)
    decreases Abs(l), 1
  {
    if l > 0 then NodeVal(nodes, x, l) else !NodeVal(nodes, x, -l)
  }

  lemma {:induction false} NodeValPrefix(nodes: seq<Node>, more: seq<Node>, x: set<int>, n: int)
    requires NodesOk(nodes) && NodesOk(nodes + more) && 1 <= n < |nodes|
    ensures NodeVal(nodes + more, x, n) == NodeVal(nodes, x, n)
    decreases n
  {
    match nodes[n]
    case AndNode(a, b) =>
      NodeValPrefix(nodes, more, x, Abs(a));
      NodeValPrefix(nodes, more, x, Abs(b));
    case _ =>
  }

  lemma LitValPrefix(nodes: seq<Node>, more: seq<Node>, x: set<int>, l: int)
    requires NodesOk(nodes) && NodesOk(nodes + more) && IsLit(l, |nodes| - 1)
    ensures LitVal(nodes + more, x, l) == LitVal(nodes, x, l)
  {
    NodeValPrefix(nodes, more, x, Abs(l));
  }

  // ----- the simplifying AND -----

  function Max(a: int, b: int): int {
    if a > b then a else b
  }

  /** Unrolled literal of an original literal. */
  function ValueOf(values: seq<int>, p: int): int
    requires 0 < Abs(p) < |values|
  {
    if p > 0 then values[p] else -values[-p]
  }

  /** Fan-ins of a gate; an input or latch reads as itself AND true. */
  function FanIn(c: Aig, p: int): (r: (int, int))
    requires GatesOk(Leaves(c) + 1, c.ands) && IsLit(p, MaxVar(c))
    ensures IsLit(r.0, MaxVar(c)) && IsLit(r.1, MaxVar(c))
    ensures Abs(p) > Leaves(c) ==> Abs(r.0) < Abs(p) && Abs(r.1) < Abs(p)
  {
    if Abs(p) > Leaves(c) then
      var g := c.ands[Abs(p) - Leaves(c) - 1];
      (g.i1, g.i2)
    else
      (Abs(p), -1)
  }

  datatype Rewrite = Done(r: int) | Again(p0: int, p1: int)

  /** Simplification through the fan-ins of `p`, whose unrolled literal is `v`, against `w`. */
  function Through(c: Aig, values: seq<int>, p: int, v: int, w: int): (r: Rewrite)
    requires GatesOk(Leaves(c) + 1, c.ands) && |values| > MaxVar(c) && IsLit(p, MaxVar(c))
    ensures r.Again? ==> IsLit(r.p0, MaxVar(c)) && IsLit(r.p1, MaxVar(c))
    ensures r.Again? ==> Max(Abs(r.p0), Abs(r.p1)) < Max(Abs(p), Leaves(c) + 1)
  {
    var (pa, pb) := FanIn(c, p);
    var va, vb := ValueOf(values, pa), ValueOf(values, pb);
    if p < 0 then
      if va == -w || vb == -w then Done(w)
      else if vb == w then Again(-pa, pb)
      else if va == w then Again(-pb, pa)
      else Done(0)
    else
      if va == -w || vb == -w then Done(1)
      else if va == w || vb == w then Done(v)
      else Done(0)
  }

  /** One- and two-level simplification of an AND over original literals; 0 when nothing applies.
      Each repetition goes down to fan-ins, so the larger node index shrinks. */
  function AigAnd(c: Aig, values: seq<int>, p0: int, p1: int): int
    requires GatesOk(Leaves(c) + 1, c.ands) && |values| > MaxVar(c) && IsLit(p0, MaxVar(c)) && IsLit(p1, MaxVar(c))
    decreases Max(Abs(p0), Abs(p1))
  {
    var v0, v1 := ValueOf(values, p0), ValueOf(values, p1);
    if v0 == v1 then v0
    else if v0 == -v1 then 1
    else if Abs(v0) == 1 then (if v0 == -1 then v1 else 1)
    else if Abs(v1) == 1 then (if v1 == -1 then v0 else 1)
    else if Abs(p0) <= Leaves(c) && Abs(p1) <= Leaves(c) then 0
    else
      var left := Through(c, values, p0, v0, v1);
      var right := Through(c, values, p1, v1, v0);
      match if left == Done(0) then right else left
      case Done(r) => r
      case Again(a, b) => AigAnd(c, values, a, b)
  }

  /** The unrolled literals of all variables up to `top` carry the values of the original circuit
      under assignment `e`. */
  ghost predicate Represents(c: Aig, nodes: seq<Node>, values: seq<int>, x: set<int>, e: set<int>, top: int)
    requires GatesOk(Leaves(c) + 1, c.ands) && NodesOk(nodes)
  {
    && |values| > MaxVar(c) >= top
    && values[1] == 1
    && (forall v :: 1 <= v <= top ==> IsLit(values[v], |nodes| - 1))
    && (forall v :: 1 <= v <= top ==> LitVal(nodes, x, values[v]) == Eval(c, e, v))
  }

  lemma ValueOfMeaning(c: Aig, nodes: seq<Node>, values: seq<int>, x: set<int>, e: set<int>, top: int, p: int)
    requires GatesOk(Leaves(c) + 1, c.ands) && NodesOk(nodes) && Represents(c, nodes, values, x, e, top) && IsLit(p, top)
    ensures IsLit(ValueOf(values, p), |nodes| - 1) && LitVal(nodes, x, ValueOf(values, p)) == Value(c, e, p)
  {
    hide Eval, NodeVal;
  }

  lemma FanInMeaning(c: Aig, e: set<int>, p: int)
    requires GatesOk(Leaves(c) + 1, c.ands) && IsLit(p, MaxVar(c))
    ensures var (a, b) := FanIn(c, p); Eval(c, e, Abs(p)) == (Value(c, e, a) && Value(c, e, b))
    ensures var (a, b) := FanIn(c, p); Abs(a) <= Abs(p) && Abs(b) <= Abs(p)
  {
  }

  ghost predicate MeansAnd(c: Aig, nodes: seq<Node>, x: set<int>, e: set<int>, r: int, p0: int, p1: int)
    requires GatesOk(Leaves(c) + 1, c.ands) && NodesOk(nodes) && IsLit(p0, MaxVar(c)) && IsLit(p1, MaxVar(c))
  {
    r != 0 ==> IsLit(r, |nodes| - 1) && LitVal(nodes, x, r) == (Value(c, e, p0) && Value(c, e, p1))
  }

  lemma ThroughSound(c: Aig, nodes: seq<Node>, values: seq<int>, x: set<int>, e: set<int>, top: int, p: int, q: int)
    requires GatesOk(Leaves(c) + 1, c.ands) && NodesOk(nodes) && Represents(c, nodes, values, x, e, top)
    requires IsLit(p, top) && IsLit(q, top) && |values| > MaxVar(c) >= top
    ensures var r := Through(c, values, p, ValueOf(values, p), ValueOf(values, q));
      && (r.Done? ==> MeansAnd(c, nodes, x, e, r.r, p, q))
      && (r.Again? ==> IsLit(r.p0, top) && IsLit(r.p1, top)
                       && (Value(c, e, r.p0) && Value(c, e, r.p1)) == (Value(c, e, p) && Value(c, e, q)))
  {
    hide Eval, NodeVal, Represents, ValueOf, FanIn, LitVal, Value;
    ValueOfMeaning(c, nodes, values, x, e, top, p);
    ValueOfMeaning(c, nodes, values, x, e, top, q);
    FanInMeaning(c, e, p);
    var (pa, pb) := FanIn(c, p);
    ValueOfMeaning(c, nodes, values, x, e, top, pa);
    ValueOfMeaning(c, nodes, values, x, e, top, pb);
    ConstantNode(nodes, x);
    LitNeg(nodes, x, ValueOf(values, q));
    ValueNeg(c, e, pa);
    ValueNeg(c, e, pb);
    ValueCases(c, e, p);
  }

  /** Every rewrite returns a literal that means the conjunction. */
  lemma {:induction false} AigAndSound(c: Aig, nodes: seq<Node>, values: seq<int>, x: set<int>, e: set<int>, top: int, p0: int, p1: int)
    requires GatesOk(Leaves(c) + 1, c.ands) && NodesOk(nodes) && Represents(c, nodes, values, x, e, top)
    requires IsLit(p0, top) && IsLit(p1, top) && |values| > MaxVar(c) >= top
    ensures MeansAnd(c, nodes, x, e, AigAnd(c, values, p0, p1), p0, p1)
    decreases Max(Abs(p0), Abs(p1))
  {
    hide Eval, NodeVal, Represents, ValueOf, FanIn, LitVal, Value, Through;
    ValueOfMeaning(c, nodes, values, x, e, top, p0);
    ValueOfMeaning(c, nodes, values, x, e, top, p1);
    ConstantNode(nodes, x);
    var v0, v1 := ValueOf(values, p0), ValueOf(values, p1);
    LitNeg(nodes, x, v0);
    LitNeg(nodes, x, v1);
    LitNeg(nodes, x, 1);
    if v0 != v1 && v0 != -v1 && Abs(v0) != 1 && Abs(v1) != 1 && (Abs(p0) > Leaves(c) || Abs(p1) > Leaves(c)) {
      ThroughSound(c, nodes, values, x, e, top, p0, p1);
      ThroughSound(c, nodes, values, x, e, top, p1, p0);
      var left := Through(c, values, p0, v0, v1);
      var next := if left == Done(0) then Through(c, values, p1, v1, v0) else left;
      if next.Again? {
        AigAndSound(c, nodes, values, x, e, top, next.p0, next.p1);
      }
    }
  }

  /** No rule applies to the fan-ins of `p` against a literal with value `w`: no fan-in is its negation,
      and for a positive gate none is the literal itself. */
  ghost predicate NoRule(c: Aig, values: seq<int>, p: int, w: int)
    requires GatesOk(Leaves(c) + 1, c.ands) && |values| > MaxVar(c) && IsLit(p, MaxVar(c))
  {
    Abs(p) > Leaves(c) ==>
      var g := c.ands[Abs(p) - Leaves(c) - 1];
      var va, vb := ValueOf(values, g.i1), ValueOf(values, g.i2);
      va != -w && vb != -w && (p > 0 ==> va != w && vb != w)
  }

  /** A negated gate with one fan-in equal to the other operand reduces to the negation of its other
      fan-in and that operand. */
  ghost predicate Reduces(c: Aig, values: seq<int>, p: int, w: int, a: int, b: int)
    requires GatesOk(Leaves(c) + 1, c.ands) && |values| > MaxVar(c) && IsLit(p, MaxVar(c))
  {
    p < 0 && -p > Leaves(c) &&
    var g := c.ands[-p - Leaves(c) - 1];
    var va, vb := ValueOf(values, g.i1), ValueOf(values, g.i2);
    (vb == w && (a, b) == (-g.i1, g.i2)) || (vb != w && va == w && (a, b) == (-g.i2, g.i1))
  }

  lemma ThroughZero(c: Aig, values: seq<int>, p: int, v: int, w: int)
    requires GatesOk(Leaves(c) + 1, c.ands) && |values| > MaxVar(c) && IsLit(p, MaxVar(c)) && values[1] == 1
    requires v == ValueOf(values, p) && v != 0 && w != 0 && v != w && v != -w && Abs(v) != 1 && Abs(w) != 1
    ensures Through(c, values, p, v, w) == Done(0) ==> NoRule(c, values, p, w) && forall a, b :: !Reduces(c, values, p, w, a, b)
    ensures forall a, b :: Through(c, values, p, v, w) == Again(a, b) ==> NoRule(c, values, p, w) && Reduces(c, values, p, w, a, b)
    ensures Through(c, values, p, v, w).Again? ==> forall a, b :: Reduces(c, values, p, w, a, b) ==> Through(c, values, p, v, w) == Again(a, b)
  {
  }

  /** A gate is asked for only when nothing simplifies: the operands have different values that are
      neither opposite nor constant, no rule applies, and a pair they reduce to needs a gate as well. */
  lemma AigAndZero(c: Aig, values: seq<int>, p0: int, p1: int)
    requires GatesOk(Leaves(c) + 1, c.ands) && |values| > MaxVar(c) && IsLit(p0, MaxVar(c)) && IsLit(p1, MaxVar(c))
    requires values[1] == 1 && ValueOf(values, p0) != 0 && ValueOf(values, p1) != 0 && AigAnd(c, values, p0, p1) == 0
    ensures var v0, v1 := ValueOf(values, p0), ValueOf(values, p1);
      && v0 != v1 && v0 != -v1 && Abs(v0) != 1 && Abs(v1) != 1
      && NoRule(c, values, p0, v1) && ((forall a, b :: !Reduces(c, values, p0, v1, a, b)) ==> NoRule(c, values, p1, v0))
      && (forall a, b :: Reduces(c, values, p0, v1, a, b) ==> AigAnd(c, values, a, b) == 0)
      && (forall a, b :: Reduces(c, values, p1, v0, a, b) && (forall d, e :: !Reduces(c, values, p0, v1, d, e)) ==> AigAnd(c, values, a, b) == 0)
  {
    var v0, v1 := ValueOf(values, p0), ValueOf(values, p1);
    if v0 != v1 && v0 != -v1 && Abs(v0) != 1 && Abs(v1) != 1 {
      ThroughZero(c, values, p0, v0, v1);
      ThroughZero(c, values, p1, v1, v0);
    }
    hide Through, NoRule, Reduces;
  }

  lemma LitNeg(nodes: seq<Node>, x: set<int>, l: int)
    requires NodesOk(nodes) && IsLit(l, |nodes| - 1)
    ensures LitVal(nodes, x, -l) == !LitVal(nodes, x, l)
  {
  }

  lemma ValueNeg(c: Aig, e: set<int>, l: int)
    requires GatesOk(Leaves(c) + 1, c.ands) && IsLit(l, MaxVar(c))
    ensures Value(c, e, -l) == !Value(c, e, l)
  {
  }

  lemma ValueCases(c: Aig, e: set<int>, p: int)
    requires GatesOk(Leaves(c) + 1, c.ands) && IsLit(p, MaxVar(c))
    ensures Value(c, e, p) == if p > 0 then Eval(c, e, p) else !Eval(c, e, -p)
  {
  }

  lemma ConstantNode(nodes: seq<Node>, x: set<int>)
    requires NodesOk(nodes)
    ensures !LitVal(nodes, x, 1)
  {
  }

  // ----- the run described by an assignment of the unrolled inputs -----

  /** Node standing for the initial value of a latch without reset. */
  function InitNode(c: Aig, v: int): int {
    v - c.inputs
  }

  ghost predicate StartsTrue(c: Aig, x: set<int>, v: int) {
    v in c.reset || (-v !in c.reset && InitNode(c, v) in x)
  }

  ghost function InitialLatches(c: Aig, x: set<int>): (e: set<int>)
    ensures forall v :: v in e <==> IsLatch(c, v) && StartsTrue(c, x, v)
  {
    set v: int | v in UpTo(Leaves(c)) && IsLatch(c, v) && StartsTrue(c, x, v)
  }

  ghost function InputsAt(c: Aig, row: seq<int>, x: set<int>): (e: set<int>)
    requires |row| == c.inputs
    ensures forall v :: v in e <==> IsInput(c, v) && row[v - 2] in x
  {
    set v: int | v in UpTo(Leaves(c)) && IsInput(c, v) && row[v - 2] in x
  }

  ghost predicate RowsOk(c: Aig, rows: seq<seq<int>>) {
    forall t :: 0 <= t < |rows| ==> |rows[t]| == c.inputs
  }

  ghost function LatchesAt(c: Aig, rows: seq<seq<int>>, x: set<int>, t: nat): (e: set<int>)
    requires WellFormed(c) && RowsOk(c, rows) && t <= |rows|
    decreases t, 0
  {
    if t == 0 then InitialLatches(c, x) else NextLatches(c, EnvAt(c, rows, x, t - 1))
  }

  ghost function EnvAt(c: Aig, rows: seq<seq<int>>, x: set<int>, t: nat): (e: set<int>)
    requires WellFormed(c) && RowsOk(c, rows) && t < |rows|
    decreases t, 1
  {
    LatchesAt(c, rows, x, t) + InputsAt(c, rows[t], x)
  }

  lemma {:induction false} EnvPrefix(c: Aig, rows: seq<seq<int>>, more: seq<seq<int>>, x: set<int>, t: nat)
    requires WellFormed(c) && RowsOk(c, rows) && RowsOk(c, rows + more) && t <= |rows|
    ensures LatchesAt(c, rows + more, x, t) == LatchesAt(c, rows, x, t)
    ensures t < |rows| ==> EnvAt(c, rows + more, x, t) == EnvAt(c, rows, x, t)
    decreases t
  {
    hide NextLatches, InputsAt, InitialLatches;
    if t > 0 {
      EnvPrefix(c, rows, more, x, t - 1);
    }
    if t < |rows| {
      assert (rows + more)[t] == rows[t];
    }
  }

  lemma {:induction false} LatchesAreLatches(c: Aig, rows: seq<seq<int>>, x: set<int>, t: nat)
    requires WellFormed(c) && RowsOk(c, rows) && t <= |rows|
    ensures forall v :: v in LatchesAt(c, rows, x, t) ==> IsLatch(c, v)
  {
  }

  ghost function RunOf(c: Aig, rows: seq<seq<int>>, x: set<int>): (tr: seq<set<int>>)
    requires WellFormed(c) && RowsOk(c, rows)
    ensures |tr| == |rows|
    ensures forall t :: 0 <= t < |rows| ==> tr[t] == EnvAt(c, rows, x, t)
  {
    seq(|rows|, t requires 0 <= t < |rows| => EnvAt(c, rows, x, t))
  }

  lemma RunStarts(c: Aig, rows: seq<seq<int>>, x: set<int>)
    requires WellFormed(c) && RowsOk(c, rows) && |rows| > 0
    ensures AllHold(EnvAt(c, rows, x, 0), c.reset)
  {
    hide *;
    EnvLatches(c, rows, x);
    ResetHolds(c, EnvAt(c, rows, x, 0), x);
  }

  lemma EnvLatches(c: Aig, rows: seq<seq<int>>, x: set<int>)
    requires WellFormed(c) && RowsOk(c, rows) && |rows| > 0
    ensures forall v :: IsLatch(c, v) ==> (v in EnvAt(c, rows, x, 0) <==> StartsTrue(c, x, v))
  {
    hide WellFormed, StartsTrue;
  }

  lemma ResetHolds(c: Aig, e: set<int>, x: set<int>)
    requires WellFormed(c) && forall v :: IsLatch(c, v) ==> (v in e <==> StartsTrue(c, x, v))
    ensures AllHold(e, c.reset)
  {
    forall l | l in c.reset
      ensures Holds(e, l)
    {
      assert IsLatch(c, Abs(l));
    }
  }

  lemma RunStep(c: Aig, rows: seq<seq<int>>, x: set<int>, t: nat)
    requires WellFormed(c) && RowsOk(c, rows) && t < |rows| - 1
    ensures Follows(c, EnvAt(c, rows, x, t), EnvAt(c, rows, x, t + 1))
  {
    hide Value, NextLatches;
    var e, e' := EnvAt(c, rows, x, t), EnvAt(c, rows, x, t + 1);
    assert LatchesAt(c, rows, x, t + 1) == NextLatches(c, e);
    forall k | 0 <= k < c.latches
      ensures LatchVar(c, k) in e' <==> Value(c, e, c.nexts[k])
    {
      assert !IsInput(c, LatchVar(c, k));
    }
  }

  /** The described run starts in a reset state and follows the next-state functions. */
  lemma RunFollows(c: Aig, rows: seq<seq<int>>, x: set<int>)
    requires WellFormed(c) && RowsOk(c, rows)
    ensures |rows| > 0 ==> AllHold(RunOf(c, rows, x)[0], c.reset)
    ensures forall t :: 0 <= t < |rows| - 1 ==> Follows(c, RunOf(c, rows, x)[t], RunOf(c, rows, x)[t + 1])
  {
    hide EnvAt, Follows, AllHold, WellFormed, RowsOk;
    if |rows| > 0 {
      RunStarts(c, rows, x);
    }
    forall t | 0 <= t < |rows| - 1
      ensures Follows(c, RunOf(c, rows, x)[t], RunOf(c, rows, x)[t + 1])
    {
      RunStep(c, rows, x, t);
    }
  }

  /** Rows hold pairwise different nodes beyond the initial latch nodes. */
  ghost predicate RowsDistinct(c: Aig, rows: seq<seq<int>>)
    requires RowsOk(c, rows)
  {
    && (forall t, i :: 0 <= t < |rows| && 0 <= i < c.inputs ==> rows[t][i] > c.latches + 1)
    && (forall t, i, u, j :: 0 <= t < |rows| && 0 <= i < c.inputs && 0 <= u < |rows| && 0 <= j < c.inputs
          ==> (rows[t][i] == rows[u][j] ==> t == u && i == j))
  }

  /** Assignment of the unrolled inputs that describes a given trace. */
  ghost function Describe(c: Aig, rows: seq<seq<int>>, tr: seq<set<int>>): (x: set<int>)
    requires RowsOk(c, rows) && |tr| == |rows|
  {
    (set v: int | v in UpTo(Leaves(c)) && IsLatch(c, v) && |tr| > 0 && v in tr[0] :: InitNode(c, v))
    + (set t: int, i: int | 0 <= t < |rows| && 0 <= i < c.inputs && i + 2 in tr[t] :: rows[t][i])
  }

  lemma DescribeInput(c: Aig, rows: seq<seq<int>>, tr: seq<set<int>>, t: int, i: int)
    requires RowsOk(c, rows) && |tr| == |rows| && RowsDistinct(c, rows) && 0 <= t < |rows| && 0 <= i < c.inputs
    ensures rows[t][i] in Describe(c, rows, tr) <==> i + 2 in tr[t]
  {
  }

  lemma DescribeLatch(c: Aig, rows: seq<seq<int>>, tr: seq<set<int>>, v: int)
    requires RowsOk(c, rows) && |tr| == |rows| && RowsDistinct(c, rows) && IsLatch(c, v) && |tr| > 0
    ensures InitNode(c, v) in Describe(c, rows, tr) <==> v in tr[0]
  {
    assert v in UpTo(Leaves(c));
    assert InitNode(c, v) <= c.latches + 1;
  }

  lemma {:induction false} DescribeSame(c: Aig, rows: seq<seq<int>>, tr: seq<set<int>>, t: nat)
    requires WellFormed(c) && RowsOk(c, rows) && |tr| == |rows| && RowsDistinct(c, rows) && t < |tr|
    requires AllHold(tr[0], c.reset) && forall j :: 0 <= j < |tr| - 1 ==> Follows(c, tr[j], tr[j + 1])
    ensures SameLeaves(c, EnvAt(c, rows, Describe(c, rows, tr), t), tr[t])
  {
    hide Describe, Value, NextLatches, RowsDistinct;
    var x := Describe(c, rows, tr);
    var e := EnvAt(c, rows, x, t);
    LatchesAreLatches(c, rows, x, t);
    if t > 0 {
      DescribeSame(c, rows, tr, t - 1);
      SemanticsSame(c, EnvAt(c, rows, x, t - 1), tr[t - 1]);
      assert Follows(c, tr[t - 1], tr[t - 1 + 1]);
      assert Follows(c, EnvAt(c, rows, x, t - 1), tr[t]);
    }
    forall v | 2 <= v <= Leaves(c)
      ensures v in e <==> v in tr[t]
    {
      if IsInput(c, v) {
        DescribeInput(c, rows, tr, t, v - 2);
        assert !IsLatch(c, v);
      } else {
        assert IsLatch(c, v) && LatchVar(c, v - c.inputs - 2) == v;
        if t == 0 {
          DescribeLatch(c, rows, tr, v);
          assert v in c.reset ==> Holds(tr[0], v);
          assert -v in c.reset ==> Holds(tr[0], -v);
        } else {
          assert v in e <==> v in LatchesAt(c, rows, x, t);
          assert LatchesAt(c, rows, x, t) == NextLatches(c, EnvAt(c, rows, x, t - 1));
        }
      }
    }
  }
}
