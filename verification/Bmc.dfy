/** Bounded model checking: the unroller with structural hashing, incremental loading of the cone of
    influence, and the search over frames split between threads. */
module Bmc {
  import opened Cnf
  import opened Circuit
  import opened Encoding
  import opened Activation
  import opened Unroll

  // ----- gates of the unrolled circuit and the hash table -----

  predicate SamePair(g: And, a: int, b: int) {
    (g.i1 == a && g.i2 == b) || (g.i1 == b && g.i2 == a)
  }

  /** The gate list holds exactly the AND nodes, in order of their index. */
  ghost predicate GatesListed(nodes: seq<Node>, gates: seq<And>)
    requires NodesOk(nodes)
  {
    && (forall k :: 0 <= k < |gates| ==> 2 <= gates[k].o < |nodes| && nodes[gates[k].o] == AndNode(gates[k].i1, gates[k].i2))
    && (forall j, k :: 0 <= j < k < |gates| ==> gates[j].o < gates[k].o)
    && (forall n :: 2 <= n < |nodes| && nodes[n].AndNode? ==> exists k :: 0 <= k < |gates| && gates[k].o == n)
  }

  /** No operand pair occurs twice, in either order. */
  ghost predicate NoDuplicates(gates: seq<And>) {
    forall j, k :: 0 <= j < k < |gates| ==> !SamePair(gates[j], gates[k].i1, gates[k].i2)
  }

  function Bucket(hash: map<int, seq<And>>, n: int): seq<And> {
    if n in hash then hash[n] else []
  }

  /** Bucket n lists exactly the gates that read node n. */
  ghost predicate HashOk(gates: seq<And>, hash: map<int, seq<And>>) {
    forall n: int, g: And :: g in Bucket(hash, n) <==> g in gates && (Abs(g.i1) == n || Abs(g.i2) == n)
  }

  /** Looking into one bucket finds a gate exactly when a scan of all gates would. */
  method FindGate(hash: map<int, seq<And>>, a: int, b: int, ghost gates: seq<And>) returns (o: int)
    requires HashOk(gates, hash) && forall k :: 0 <= k < |gates| ==> gates[k].o > 0
    ensures o != 0 ==> exists k :: 0 <= k < |gates| && gates[k].o == o && SamePair(gates[k], a, b)
    ensures o == 0 ==> forall k :: 0 <= k < |gates| ==> !SamePair(gates[k], a, b)
  {
    o := 0;
    var bucket := Bucket(hash, Abs(a));
    var k := 0;
    while k < |bucket|
      invariant 0 <= k <= |bucket|
      invariant o != 0 ==> exists j :: 0 <= j < |gates| && gates[j].o == o && SamePair(gates[j], a, b)
      invariant o == 0 ==> forall j :: 0 <= j < k ==> !SamePair(bucket[j], a, b)
    {
      assert bucket[k] in Bucket(hash, Abs(a));
      if SamePair(bucket[k], a, b) {
        o := bucket[k].o;
      }
      k := k + 1;
    }
    if o == 0 {
      forall j | 0 <= j < |gates|
        ensures !SamePair(gates[j], a, b)
      {
        assert gates[j] in Bucket(hash, Abs(a)) <==> Abs(gates[j].i1) == Abs(a) || Abs(gates[j].i2) == Abs(a);
      }
    }
  }

  function Insert(hash: map<int, seq<And>>, g: And): map<int, seq<And>> {
    var h := hash[Abs(g.i1) := Bucket(hash, Abs(g.i1)) + [g]];
    h[Abs(g.i2) := Bucket(h, Abs(g.i2)) + [g]]
  }

  lemma InsertOk(gates: seq<And>, hash: map<int, seq<And>>, g: And)
    requires HashOk(gates, hash)
    ensures HashOk(gates + [g], Insert(hash, g))
  {
    var h := Insert(hash, g);
    forall n: int, x: And
      ensures x in Bucket(h, n) <==> x in gates + [g] && (Abs(x.i1) == n || Abs(x.i2) == n)
    {
      assert x in gates + [g] <==> x in gates || x == g;
      assert x in Bucket(hash, n) <==> x in gates && (Abs(x.i1) == n || Abs(x.i2) == n);
    }
  }

  // ----- what the unrolling means -----

  /** For every assignment of the unrolled inputs, the variables up to `top` represent the original
      circuit at frame `t`. */
  ghost predicate FrameAt(c: Aig, nodes: seq<Node>, values: seq<int>, rows: seq<seq<int>>, t: nat, top: int)
    requires WellFormed(c) && NodesOk(nodes) && RowsOk(c, rows) && t < |rows|
  {
    forall x :: Represents(c, nodes, values, x, EnvAt(c, rows, x, t), top)
  }

  /** Between frames: the latch variables represent the latches at time `t`. */
  ghost predicate LatchesReady(c: Aig, nodes: seq<Node>, values: seq<int>, rows: seq<seq<int>>, t: nat)
    requires WellFormed(c) && NodesOk(nodes) && RowsOk(c, rows) && t <= |rows|
  {
    && |values| == MaxVar(c) + 1 && values[1] == 1
    && (forall v :: IsLatch(c, v) ==> IsLit(values[v], |nodes| - 1))
    && (forall x, v :: IsLatch(c, v) ==> LitVal(nodes, x, values[v]) == (v in LatchesAt(c, rows, x, t)))
  }

  /** Literal `l` of the unrolled circuit is original literal `p` at frame `t`. */
  ghost predicate Mirrors(c: Aig, nodes: seq<Node>, rows: seq<seq<int>>, t: nat, l: int, p: int)
    requires WellFormed(c) && NodesOk(nodes) && RowsOk(c, rows) && t < |rows| && IsLit(p, MaxVar(c))
  {
    IsLit(l, |nodes| - 1) && forall x :: LitVal(nodes, x, l) == Value(c, EnvAt(c, rows, x, t), p)
  }

  lemma MirrorsGrow(c: Aig, nodes: seq<Node>, more: seq<Node>, rows: seq<seq<int>>, new_: seq<seq<int>>, t: nat, l: int, p: int)
    requires WellFormed(c) && NodesOk(nodes) && NodesOk(nodes + more) && RowsOk(c, rows) && RowsOk(c, rows + new_)
    requires t < |rows| && IsLit(p, MaxVar(c)) && Mirrors(c, nodes, rows, t, l, p)
    ensures Mirrors(c, nodes + more, rows + new_, t, l, p)
  {
    hide Value, LitVal, EnvAt, NodesOk;
    forall x
      ensures LitVal(nodes + more, x, l) == Value(c, EnvAt(c, rows + new_, x, t), p)
    {
      LitValPrefix(nodes, more, x, l);
      EnvPrefix(c, rows, new_, x, t);
    }
  }

  lemma FrameMirrors(c: Aig, nodes: seq<Node>, values: seq<int>, rows: seq<seq<int>>, t: nat, p: int)
    requires WellFormed(c) && NodesOk(nodes) && RowsOk(c, rows) && t < |rows|
    requires FrameAt(c, nodes, values, rows, t, MaxVar(c)) && IsLit(p, MaxVar(c)) && |values| > MaxVar(c)
    ensures Mirrors(c, nodes, rows, t, ValueOf(values, p), p)
  {
    hide Value, LitVal, EnvAt, NodesOk, Represents, ValueOf;
    forall x
      ensures IsLit(ValueOf(values, p), |nodes| - 1)
      ensures LitVal(nodes, x, ValueOf(values, p)) == Value(c, EnvAt(c, rows, x, t), p)
    {
      ValueOfMeaning(c, nodes, values, x, EnvAt(c, rows, x, t), MaxVar(c), p);
    }
    assert IsLit(ValueOf(values, p), |nodes| - 1) by {
      ValueOfMeaning(c, nodes, values, {}, EnvAt(c, rows, {}, t), MaxVar(c), p);
    }
  }

  /** Extending a represented prefix by one gate whose literal means its conjunction. */
  lemma FrameStep(c: Aig, nodes: seq<Node>, values: seq<int>, rows: seq<seq<int>>, t: nat, k: int, r: int)
    requires WellFormed(c) && NodesOk(nodes) && RowsOk(c, rows) && t < |rows| && 0 <= k < |c.ands|
    requires FrameAt(c, nodes, values, rows, t, Leaves(c) + k) && |values| == MaxVar(c) + 1
    requires IsLit(r, |nodes| - 1)
    requires forall x :: MeansAnd(c, nodes, x, EnvAt(c, rows, x, t), r, c.ands[k].i1, c.ands[k].i2)
    ensures FrameAt(c, nodes, values[c.ands[k].o := r], rows, t, Leaves(c) + k + 1)
  {
    hide LitVal, EnvAt, NodesOk;
    var o := c.ands[k].o;
    assert o == Leaves(c) + 1 + k;
    var values' := values[o := r];
    forall x
      ensures Represents(c, nodes, values', x, EnvAt(c, rows, x, t), Leaves(c) + k + 1)
    {
      assert Represents(c, nodes, values, x, EnvAt(c, rows, x, t), Leaves(c) + k);
      assert MeansAnd(c, nodes, x, EnvAt(c, rows, x, t), r, c.ands[k].i1, c.ands[k].i2);
    }
  }

  lemma FrameGrow(c: Aig, nodes: seq<Node>, more: seq<Node>, values: seq<int>, rows: seq<seq<int>>, t: nat, top: int)
    requires WellFormed(c) && NodesOk(nodes) && NodesOk(nodes + more) && RowsOk(c, rows) && t < |rows|
    requires FrameAt(c, nodes, values, rows, t, top)
    ensures FrameAt(c, nodes + more, values, rows, t, top)
  {
    hide LitVal, EnvAt, NodesOk, Eval;
    forall x
      ensures Represents(c, nodes + more, values, x, EnvAt(c, rows, x, t), top)
    {
      assert Represents(c, nodes, values, x, EnvAt(c, rows, x, t), top);
      forall v | 1 <= v <= top
        ensures LitVal(nodes + more, x, values[v]) == Eval(c, EnvAt(c, rows, x, t), v)
      {
        LitValPrefix(nodes, more, x, values[v]);
      }
    }
  }

  lemma SamePairMeaning(nodes: seq<Node>, gates: seq<And>, k: int, a: int, b: int, x: set<int>)
    requires NodesOk(nodes) && GatesListed(nodes, gates) && 0 <= k < |gates| && SamePair(gates[k], a, b)
    ensures IsLit(a, |nodes| - 1) && IsLit(b, |nodes| - 1) && IsLit(gates[k].o, |nodes| - 1)
    ensures LitVal(nodes, x, gates[k].o) == (LitVal(nodes, x, a) && LitVal(nodes, x, b))
  {
  }

  lemma NewNodeMeaning(nodes: seq<Node>, a: int, b: int, x: set<int>)
    requires NodesOk(nodes) && IsLit(a, |nodes| - 1) && IsLit(b, |nodes| - 1)
    ensures NodesOk(nodes + [AndNode(a, b)])
    ensures LitVal(nodes + [AndNode(a, b)], x, |nodes|) == (LitVal(nodes, x, a) && LitVal(nodes, x, b))
  {
    var more := [AndNode(a, b)];
    assert NodesOk(nodes + more);
    assert (nodes + more)[|nodes|] == AndNode(a, b);
    LitValPrefix(nodes, more, x, a);
    LitValPrefix(nodes, more, x, b);
  }

  lemma GatesListedGrow(nodes: seq<Node>, gates: seq<And>, a: int, b: int)
    requires NodesOk(nodes) && GatesListed(nodes, gates) && IsLit(a, |nodes| - 1) && IsLit(b, |nodes| - 1)
    ensures NodesOk(nodes + [AndNode(a, b)])
    ensures GatesListed(nodes + [AndNode(a, b)], gates + [And(|nodes|, a, b)])
  {
    var ns, gs := nodes + [AndNode(a, b)], gates + [And(|nodes|, a, b)];
    assert NodesOk(ns);
    forall n | 2 <= n < |ns| && ns[n].AndNode?
      ensures exists k :: 0 <= k < |gs| && gs[k].o == n
    {
      if n == |nodes| {
        assert gs[|gates|].o == n;
      } else {
        assert nodes[n].AndNode?;
        var k :| 0 <= k < |gates| && gates[k].o == n;
        assert gs[k].o == n;
      }
    }
    forall j, k | 0 <= j < k < |gs|
      ensures gs[j].o < gs[k].o
    {
      assert gs[j] == gates[j];
    }
    forall k | 0 <= k < |gs|
      ensures 2 <= gs[k].o < |ns| && ns[gs[k].o] == AndNode(gs[k].i1, gs[k].i2)
    {
      if k < |gates| {
        assert gs[k] == gates[k];
      }
    }
  }

  lemma NoDuplicatesGrow(gates: seq<And>, g: And)
    requires NoDuplicates(gates) && forall k :: 0 <= k < |gates| ==> !SamePair(gates[k], g.i1, g.i2)
    ensures NoDuplicates(gates + [g])
  {
  }

  lemma InputListed(nodes: seq<Node>, gates: seq<And>, hash: map<int, seq<And>>)
    requires NodesOk(nodes) && StructureOk(nodes, gates, hash)
    ensures NodesOk(nodes + [InputNode]) && StructureOk(nodes + [InputNode], gates, hash)
  {
    hide HashOk, NoDuplicates;
    var ns := nodes + [InputNode];
    assert NodesOk(ns);
    forall n | 2 <= n < |ns| && ns[n].AndNode?
      ensures exists k :: 0 <= k < |gates| && gates[k].o == n
    {
      assert nodes[n].AndNode?;
    }
  }

  /** Gate list and hash table are complete, consistent and free of duplicates. */
  ghost predicate StructureOk(nodes: seq<Node>, gates: seq<And>, hash: map<int, seq<And>>)
    requires NodesOk(nodes)
  {
    GatesListed(nodes, gates) && NoDuplicates(gates) && HashOk(gates, hash)
  }

  ghost predicate AndOf(nodes: seq<Node>, nodes': seq<Node>, x: set<int>, r: int, a: int, b: int)
    requires NodesOk(nodes) && NodesOk(nodes') && IsLit(a, |nodes| - 1) && IsLit(b, |nodes| - 1)
  {
    IsLit(r, |nodes'| - 1) && LitVal(nodes', x, r) == (LitVal(nodes, x, a) && LitVal(nodes, x, b))
  }

  /** `r` is the output of the gate with these operands; a gate was added only if there was none. */
  ghost predicate Built(gates: seq<And>, gates': seq<And>, a: int, b: int, r: int) {
    && (exists k :: 0 <= k < |gates'| && SamePair(gates'[k], a, b) && gates'[k].o == r)
    && if exists k :: 0 <= k < |gates| && SamePair(gates[k], a, b) then gates' == gates else |gates'| == |gates| + 1
  }

  lemma NewPair(gates: seq<And>, r: int, a: int, b: int)
    requires !exists k :: 0 <= k < |gates| && SamePair(gates[k], a, b)
    ensures Built(gates, gates + [And(r, a, b)], a, b, r)
  {
    var more := gates + [And(r, a, b)];
    assert SamePair(more[|gates|], a, b) && more[|gates|].o == r;
  }

  /** Structural hashing: an existing gate with the same operands is reused, else one is built. */
  method Strash(nodes: seq<Node>, gates: seq<And>, hash: map<int, seq<And>>, a: int, b: int)
    returns (nodes': seq<Node>, gates': seq<And>, hash': map<int, seq<And>>, r: int)
    requires NodesOk(nodes) && StructureOk(nodes, gates, hash) && IsLit(a, |nodes| - 1) && IsLit(b, |nodes| - 1)
    ensures NodesOk(nodes') && StructureOk(nodes', gates', hash')
    ensures nodes <= nodes' && gates <= gates' && IsLit(r, |nodes'| - 1)
    ensures forall x :: AndOf(nodes, nodes', x, r, a, b)
    ensures Built(gates, gates', a, b, r) && |nodes'| <= |nodes| + 1
  {
    hide NodesOk, GatesListed, HashOk, NoDuplicates, SamePair, LitVal;
    GateIds(nodes, gates);
    r := FindGate(hash, a, b, gates);
    if r == 0 {
      r := |nodes|;
      nodes', gates', hash' := nodes + [AndNode(a, b)], gates + [And(r, a, b)], Insert(hash, And(r, a, b));
      GatesListedGrow(nodes, gates, a, b);
      NoDuplicatesGrow(gates, And(r, a, b));
      InsertOk(gates, hash, And(r, a, b));
      NewPair(gates, r, a, b);
      forall x
        ensures AndOf(nodes, nodes', x, r, a, b)
      {
        NewNodeMeaning(nodes, a, b, x);
      }
    } else {
      nodes', gates', hash' := nodes, gates, hash;
      ghost var k :| 0 <= k < |gates| && gates[k].o == r && SamePair(gates[k], a, b);
      assert gates'[k].o == r && SamePair(gates'[k], a, b);
      forall x
        ensures AndOf(nodes, nodes', x, r, a, b)
      {
        SamePairMeaning(nodes, gates, k, a, b, x);
      }
      SamePairMeaning(nodes, gates, k, a, b, {});
    }
  }

  lemma GateIds(nodes: seq<Node>, gates: seq<And>)
    requires NodesOk(nodes) && GatesListed(nodes, gates)
    ensures forall k :: 0 <= k < |gates| ==> 0 < gates[k].o < |nodes|
  {
  }

  // ----- the unroller -----

  /** Recorded bad and constraint literals of all finished frames. */
  ghost predicate HistoryOk(c: Aig, nodes: seq<Node>, rows: seq<seq<int>>, outputs: seq<int>, cons: seq<seq<int>>)
    requires WellFormed(c) && NodesOk(nodes) && RowsOk(c, rows)
  {
    && |outputs| == |cons| <= |rows|
    && (forall t :: 0 <= t < |outputs| ==> Mirrors(c, nodes, rows, t, outputs[t], c.bad))
    && (forall t :: 0 <= t < |cons| ==> |cons[t]| == |c.constraints|)
    && (forall t, k :: 0 <= t < |cons| && 0 <= k < |c.constraints| ==> Mirrors(c, nodes, rows, t, cons[t][k], c.constraints[k]))
  }

  lemma HistoryGrow(c: Aig, nodes: seq<Node>, nodes': seq<Node>, rows: seq<seq<int>>, rows': seq<seq<int>>, outputs: seq<int>, cons: seq<seq<int>>)
    requires WellFormed(c) && NodesOk(nodes) && NodesOk(nodes') && nodes <= nodes' && rows <= rows'
    requires RowsOk(c, rows) && RowsOk(c, rows') && HistoryOk(c, nodes, rows, outputs, cons)
    ensures HistoryOk(c, nodes', rows', outputs, cons)
  {
    hide Mirrors, NodesOk;
    var more, new_ := nodes'[|nodes|..], rows'[|rows|..];
    assert nodes' == nodes + more && rows' == rows + new_;
    forall t | 0 <= t < |outputs|
      ensures Mirrors(c, nodes', rows', t, outputs[t], c.bad)
    {
      MirrorsGrow(c, nodes, more, rows, new_, t, outputs[t], c.bad);
    }
    forall t, k | 0 <= t < |cons| && 0 <= k < |c.constraints|
      ensures Mirrors(c, nodes', rows', t, cons[t][k], c.constraints[k])
    {
      MirrorsGrow(c, nodes, more, rows, new_, t, cons[t][k], c.constraints[k]);
    }
  }

  /** Every row entry is a node. */
  ghost predicate RowNodes(c: Aig, nodes: seq<Node>, rows: seq<seq<int>>)
    requires RowsOk(c, rows)
  {
    forall t, i :: 0 <= t < |rows| && 0 <= i < c.inputs ==> 0 < rows[t][i] < |nodes| && nodes[rows[t][i]].InputNode?
  }

  class Unroller {
    const c: Aig
    var nodes: seq<Node>
    var gates: seq<And>
    var hash: map<int, seq<And>>
    var values: seq<int>
    var rows: seq<seq<int>>
    var outputs: seq<int>
    var cons: seq<seq<int>>

    ghost predicate Core()
      reads this
    {
      && WellFormed(c) && NodesOk(nodes) && |nodes| >= c.latches + 2
      && StructureOk(nodes, gates, hash)
      && RowsOk(c, rows) && RowsDistinct(c, rows) && RowNodes(c, nodes, rows)
      && |values| == MaxVar(c) + 1
      && HistoryOk(c, nodes, rows, outputs, cons)
    }

    ghost predicate Valid()
      reads this
    {
      && Core() && |outputs| == |rows|
      && LatchesReady(c, nodes, values, rows, |rows|)
    }

    /** Latches without reset become inputs; the others constants. */
    constructor (circuit: Aig)
      requires WellFormed(circuit)
      ensures Valid() && c == circuit && rows == [] && gates == [] && |nodes| == c.latches + 2
    {
      c := circuit;
      gates, hash, rows, outputs, cons := [], map[], [], [], [];
      var ns := [NullNode, FalseNode];
      var vs := seq(MaxVar(circuit) + 1, i => 1);
      var k := 0;
      while k < circuit.latches
        invariant 0 <= k <= circuit.latches
        invariant NodesOk(ns) && |ns| == k + 2 && |vs| == MaxVar(circuit) + 1 && vs[1] == 1
        invariant forall n :: 2 <= n < |ns| ==> ns[n].InputNode?
        invariant forall j :: 0 <= j < k ==> vs[LatchVar(circuit, j)] == StartLit(circuit, LatchVar(circuit, j))
      {
        ns := ns + [InputNode];
        vs := vs[LatchVar(circuit, k) := StartLit(circuit, LatchVar(circuit, k))];
        k := k + 1;
      }
      nodes, values := ns, vs;
      new;
      StartReady(c, nodes, values);
    }

    /** Fresh input nodes for one more frame. */
    method AddInputs()
      requires Valid()
      modifies this`nodes, this`values, this`rows
      ensures Core() && |rows| == old(|rows|) + 1 && |outputs| == old(|rows|)
      ensures old(nodes) <= nodes && old(rows) <= rows && |nodes| == old(|nodes|) + c.inputs
      ensures FrameAt(c, nodes, values, rows, |rows| - 1, Leaves(c))
    {
      hide NodesOk, HistoryOk, LatchesReady, FrameAt, RowsDistinct, StructureOk;
      ghost var n0, v0, r0 := nodes, values, rows;
      var ns, vs := nodes, values;
      var row: seq<int> := [];
      while |row| < c.inputs
        invariant |row| <= c.inputs && |vs| == |v0|
        invariant NodesOk(ns) && StructureOk(ns, gates, hash) && n0 <= ns && |ns| == |n0| + |row|
        invariant forall i :: 0 <= i < |row| ==> row[i] == |n0| + i && ns[row[i]].InputNode? && vs[i + 2] == row[i]
        invariant forall v :: 0 <= v < |vs| && !(2 <= v < |row| + 2) ==> vs[v] == v0[v]
        decreases c.inputs - |row|
        modifies {}
      {
        InputListed(ns, gates, hash);
        ns := ns + [InputNode];
        vs := vs[|row| + 2 := |ns| - 1];
        row := row + [|ns| - 1];
      }
      nodes, values, rows := ns, vs, rows + [row];
      RowAdded(c, n0, r0, row, ns);
      HistoryGrow(c, n0, ns, r0, rows, outputs, cons);
      InputsReady(c, n0, ns, v0, vs, r0, row);
    }

    /** Processes gate `k` of the original circuit: simplify, reuse, or build. */
    method UnfoldGate(k: int)
      requires Core() && |rows| > 0 && 0 <= k < |c.ands|
      requires FrameAt(c, nodes, values, rows, |rows| - 1, Leaves(c) + k)
      modifies this`nodes, this`values, this`gates, this`hash
      ensures Core() && old(gates) <= gates && old(nodes) <= nodes && |nodes| <= old(|nodes|) + 1
      ensures FrameAt(c, nodes, values, rows, |rows| - 1, Leaves(c) + k + 1)
      ensures var g := c.ands[k]; var r := AigAnd(c, old(values), g.i1, g.i2);
        if r != 0 then nodes == old(nodes) && gates == old(gates) && values == old(values)[g.o := r]
        else g.o < |values| && values == old(values)[g.o := values[g.o]] &&
             Built(old(gates), gates, ValueOf(old(values), g.i1), ValueOf(old(values), g.i2), values[g.o])
    {
      hide NodesOk, StructureOk, HistoryOk, FrameAt, RowsDistinct, MeansAnd, AigAnd, RowNodes, ValueOf;
      var g := c.ands[k];
      assert g.o == Leaves(c) + 1 + k;
      var r := AigAnd(c, values, g.i1, g.i2);
      AndLemma(c, nodes, values, rows, |rows| - 1, k);
      if r == 0 {
        var a, b := ValueOf(values, g.i1), ValueOf(values, g.i2);
        ghost var n0 := nodes;
        ghost var g0 := gates;
        nodes, gates, hash, r := Strash(nodes, gates, hash, a, b);
        assert Built(g0, gates, a, b, r);
        StrashMeaning(c, n0, nodes, values, rows, |rows| - 1, k, r);
        HistoryGrow(c, n0, nodes, rows, rows, outputs, cons);
        RowNodesGrow(c, n0, nodes, rows);
      }
      FrameStep(c, nodes, values, rows, |rows| - 1, k, r);
      values := values[g.o := r];
    }

    /** One more frame: inputs, gates, constraints, bad, and the simultaneous latch update. */
    method Unfold()
      requires Valid()
      modifies this
      ensures Valid() && |rows| == old(|rows|) + 1
      ensures old(gates) <= gates && old(nodes) <= nodes && old(rows) <= rows && old(outputs) <= outputs
      ensures |nodes| <= old(|nodes|) + c.inputs + |c.ands|
    {
      hide NodesOk, StructureOk, FrameAt, RowsDistinct, Mirrors, LatchesReady, ValueOf, RowNodes;
      AddInputs();
      ghost var t := |rows| - 1;
      var k := 0;
      while k < |c.ands|
        invariant Core() && |rows| == t + 1 && |outputs| == t && 0 <= k <= |c.ands|
        invariant old(gates) <= gates && old(nodes) <= nodes && |nodes| <= old(|nodes|) + c.inputs + k
        invariant FrameAt(c, nodes, values, rows, t, Leaves(c) + k)
        modifies this`nodes, this`values, this`gates, this`hash
      {
        UnfoldGate(k);
        k := k + 1;
      }
      var row := Evaluate(c.constraints);
      FrameMirrors(c, nodes, values, rows, t, c.bad);
      outputs := outputs + [ValueOf(values, c.bad)];
      cons := cons + [row];
      UpdateLatches();
    }

    /** Unrolled literals of a list of original literals in the current frame. */
    method Evaluate(ls: seq<int>) returns (row: seq<int>)
      requires Core() && |rows| > 0 && FrameAt(c, nodes, values, rows, |rows| - 1, MaxVar(c))
      requires forall k :: 0 <= k < |ls| ==> IsLit(ls[k], MaxVar(c))
      ensures |row| == |ls|
      ensures forall k :: 0 <= k < |ls| ==> Mirrors(c, nodes, rows, |rows| - 1, row[k], ls[k])
    {
      hide NodesOk, StructureOk, HistoryOk, FrameAt, RowsDistinct, Mirrors, ValueOf, RowNodes;
      row := [];
      while |row| < |ls|
        invariant |row| <= |ls|
        invariant forall k :: 0 <= k < |row| ==> Mirrors(c, nodes, rows, |rows| - 1, row[k], ls[k])
        decreases |ls| - |row|
      {
        FrameMirrors(c, nodes, values, rows, |rows| - 1, ls[|row|]);
        row := row + [ValueOf(values, ls[|row|])];
      }
    }

    /** All next values are read before the first latch is overwritten. */
    method UpdateLatches()
      requires Core() && |outputs| == |rows| > 0 && FrameAt(c, nodes, values, rows, |rows| - 1, MaxVar(c))
      modifies this`values
      ensures Valid()
    {
      hide NodesOk, StructureOk, HistoryOk, RowsDistinct, Mirrors, LatchesReady, RowNodes;
      var next := Evaluate(c.nexts);
      ghost var v0 := values;
      assert v0[1] == 1 by {
        assert Represents(c, nodes, v0, {}, EnvAt(c, rows, {}, |rows| - 1), MaxVar(c));
      }
      var vs := values;
      var k := 0;
      while k < c.latches
        invariant 0 <= k <= c.latches && |vs| == |v0| && vs[1] == v0[1]
        invariant forall j :: 0 <= j < k ==> vs[LatchVar(c, j)] == next[j]
        modifies {}
      {
        vs := vs[LatchVar(c, k) := next[k]];
        k := k + 1;
      }
      values := vs;
      NextReady(c, nodes, values, rows, next);
    }
  }

  function StartLit(c: Aig, v: int): int {
    if v in c.reset then -1 else if -v in c.reset then 1 else InitNode(c, v)
  }

  lemma StartReady(c: Aig, nodes: seq<Node>, values: seq<int>)
    requires WellFormed(c) && NodesOk(nodes) && |nodes| == c.latches + 2 && |values| == MaxVar(c) + 1 && values[1] == 1
    requires forall n :: 2 <= n < |nodes| ==> nodes[n].InputNode?
    requires forall j :: 0 <= j < c.latches ==> values[LatchVar(c, j)] == StartLit(c, LatchVar(c, j))
    ensures LatchesReady(c, nodes, values, [], 0)
  {
    forall v | IsLatch(c, v)
      ensures values[v] == StartLit(c, v) && IsLit(values[v], |nodes| - 1)
    {
      assert LatchVar(c, v - c.inputs - 2) == v;
    }
    forall x, v | IsLatch(c, v)
      ensures LitVal(nodes, x, values[v]) == (v in LatchesAt(c, [], x, 0))
    {
      assert v in InitialLatches(c, x) <==> StartsTrue(c, x, v);
    }
  }

  lemma RowAdded(c: Aig, nodes: seq<Node>, rows: seq<seq<int>>, row: seq<int>, nodes': seq<Node>)
    requires RowsOk(c, rows) && RowsDistinct(c, rows) && RowNodes(c, nodes, rows) && |row| == c.inputs
    requires nodes <= nodes' && |nodes'| == |nodes| + c.inputs && |nodes| >= c.latches + 2
    requires forall i :: 0 <= i < c.inputs ==> row[i] == |nodes| + i && nodes'[row[i]].InputNode?
    ensures RowsOk(c, rows + [row]) && RowsDistinct(c, rows + [row]) && RowNodes(c, nodes', rows + [row])
  {
    var rs := rows + [row];
    forall t, i | 0 <= t < |rs| && 0 <= i < c.inputs
      ensures c.latches + 1 < rs[t][i] < |nodes'| && nodes'[rs[t][i]].InputNode?
      ensures t < |rows| ==> rs[t][i] < |nodes|
    {
      if t < |rows| {
        assert rs[t][i] == rows[t][i];
      }
    }
  }

  lemma InputsReady(c: Aig, nodes: seq<Node>, nodes': seq<Node>, values: seq<int>, values': seq<int>, rows: seq<seq<int>>, row: seq<int>)
    requires WellFormed(c) && NodesOk(nodes) && NodesOk(nodes') && nodes <= nodes' && RowsOk(c, rows) && |row| == c.inputs
    requires LatchesReady(c, nodes, values, rows, |rows|) && |values'| == |values|
    requires forall i :: 0 <= i < c.inputs ==> 0 < row[i] < |nodes'| && nodes'[row[i]].InputNode? && values'[i + 2] == row[i]
    requires forall v :: 0 <= v < |values| && !(2 <= v < c.inputs + 2) ==> values'[v] == values[v]
    ensures RowsOk(c, rows + [row]) && FrameAt(c, nodes', values', rows + [row], |rows|, Leaves(c))
  {
    var rs := rows + [row];
    assert RowsOk(c, rs);
    forall x
      ensures Represents(c, nodes', values', x, EnvAt(c, rs, x, |rows|), Leaves(c))
    {
      InputsReadyFor(c, nodes, nodes', values, values', rows, row, x);
    }
  }

  lemma InputsReadyFor(c: Aig, nodes: seq<Node>, nodes': seq<Node>, values: seq<int>, values': seq<int>, rows: seq<seq<int>>, row: seq<int>, x: set<int>)
    requires WellFormed(c) && NodesOk(nodes) && NodesOk(nodes') && nodes <= nodes' && RowsOk(c, rows) && |row| == c.inputs
    requires LatchesReady(c, nodes, values, rows, |rows|) && |values'| == |values| && RowsOk(c, rows + [row]) && |nodes| >= 2
    requires forall i :: 0 <= i < c.inputs ==> 0 < row[i] < |nodes'| && nodes'[row[i]].InputNode? && values'[i + 2] == row[i]
    requires forall v :: 0 <= v < |values| && !(2 <= v < c.inputs + 2) ==> values'[v] == values[v]
    ensures Represents(c, nodes', values', x, EnvAt(c, rows + [row], x, |rows|), Leaves(c))
  {
    hide LatchesAt, InputsAt, NodesOk;
    var rs, t := rows + [row], |rows|;
    var e := EnvAt(c, rs, x, t);
    var more := nodes'[|nodes|..];
    assert nodes' == nodes + more;
    EnvPrefix(c, rows, [row], x, t);
    LatchesAreLatches(c, rs, x, t);
    assert rs[t] == row;
    forall v | 1 <= v <= Leaves(c)
      ensures IsLit(values'[v], |nodes'| - 1) && LitVal(nodes', x, values'[v]) == Eval(c, e, v)
    {
      if v == 1 {
        ConstantNode(nodes', x);
      } else if IsInput(c, v) {
        assert values'[v - 2 + 2] == row[v - 2];
        assert !IsLatch(c, v);
      } else {
        assert IsLatch(c, v) && !IsInput(c, v);
        LitValPrefix(nodes, more, x, values[v]);
      }
    }
  }

  /** The simplification result means the gate for every assignment. */
  lemma AndLemma(c: Aig, nodes: seq<Node>, values: seq<int>, rows: seq<seq<int>>, t: nat, k: int)
    requires WellFormed(c) && NodesOk(nodes) && RowsOk(c, rows) && t < |rows| && 0 <= k < |c.ands|
    requires FrameAt(c, nodes, values, rows, t, Leaves(c) + k) && |values| == MaxVar(c) + 1
    ensures var g := c.ands[k]; var r := AigAnd(c, values, g.i1, g.i2);
      && (r != 0 ==> IsLit(r, |nodes| - 1))
      && (forall x :: MeansAnd(c, nodes, x, EnvAt(c, rows, x, t), r, g.i1, g.i2))
      && IsLit(ValueOf(values, g.i1), |nodes| - 1) && IsLit(ValueOf(values, g.i2), |nodes| - 1)
  {
    hide Represents, NodesOk, AigAnd, EnvAt, LitVal, Value, ValueOf;
    var g := c.ands[k];
    assert g.o == Leaves(c) + 1 + k;
    forall x
      ensures MeansAnd(c, nodes, x, EnvAt(c, rows, x, t), AigAnd(c, values, g.i1, g.i2), g.i1, g.i2)
    {
      AigAndSound(c, nodes, values, x, EnvAt(c, rows, x, t), Leaves(c) + k, g.i1, g.i2);
    }
    AigAndSound(c, nodes, values, {}, EnvAt(c, rows, {}, t), Leaves(c) + k, g.i1, g.i2);
    ValueOfMeaning(c, nodes, values, {}, EnvAt(c, rows, {}, t), Leaves(c) + k, g.i1);
    ValueOfMeaning(c, nodes, values, {}, EnvAt(c, rows, {}, t), Leaves(c) + k, g.i2);
  }

  lemma StrashMeaning(c: Aig, nodes: seq<Node>, nodes': seq<Node>, values: seq<int>, rows: seq<seq<int>>, t: nat, k: int, r: int)
    requires WellFormed(c) && NodesOk(nodes) && NodesOk(nodes') && nodes <= nodes' && RowsOk(c, rows) && t < |rows| && 0 <= k < |c.ands|
    requires FrameAt(c, nodes, values, rows, t, Leaves(c) + k) && |values| == MaxVar(c) + 1
    requires IsLit(c.ands[k].i1, MaxVar(c)) && IsLit(c.ands[k].i2, MaxVar(c))
    requires IsLit(ValueOf(values, c.ands[k].i1), |nodes| - 1) && IsLit(ValueOf(values, c.ands[k].i2), |nodes| - 1)
    requires forall x :: AndOf(nodes, nodes', x, r, ValueOf(values, c.ands[k].i1), ValueOf(values, c.ands[k].i2))
    ensures FrameAt(c, nodes', values, rows, t, Leaves(c) + k)
    ensures forall x :: MeansAnd(c, nodes', x, EnvAt(c, rows, x, t), r, c.ands[k].i1, c.ands[k].i2)
  {
    hide Represents, NodesOk, EnvAt, LitVal, Value, ValueOf;
    var g := c.ands[k];
    assert g.o == Leaves(c) + 1 + k;
    var more := nodes'[|nodes|..];
    assert nodes' == nodes + more;
    FrameGrow(c, nodes, more, values, rows, t, Leaves(c) + k);
    forall x
      ensures MeansAnd(c, nodes', x, EnvAt(c, rows, x, t), r, g.i1, g.i2)
    {
      assert AndOf(nodes, nodes', x, r, ValueOf(values, g.i1), ValueOf(values, g.i2));
      ValueOfMeaning(c, nodes, values, x, EnvAt(c, rows, x, t), Leaves(c) + k, g.i1);
      ValueOfMeaning(c, nodes, values, x, EnvAt(c, rows, x, t), Leaves(c) + k, g.i2);
    }
  }

  lemma RowNodesGrow(c: Aig, nodes: seq<Node>, nodes': seq<Node>, rows: seq<seq<int>>)
    requires RowsOk(c, rows) && RowNodes(c, nodes, rows) && nodes <= nodes'
    ensures RowNodes(c, nodes', rows)
  {
  }

  lemma NextReady(c: Aig, nodes: seq<Node>, values: seq<int>, rows: seq<seq<int>>, next: seq<int>)
    requires WellFormed(c) && NodesOk(nodes) && RowsOk(c, rows) && |rows| > 0
    requires |values| == MaxVar(c) + 1 && values[1] == 1 && |next| == c.latches
    requires forall k :: 0 <= k < c.latches ==> values[LatchVar(c, k)] == next[k]
    requires forall k :: 0 <= k < c.latches ==> Mirrors(c, nodes, rows, |rows| - 1, next[k], c.nexts[k])
    ensures LatchesReady(c, nodes, values, rows, |rows|)
  {
    hide EnvAt, LitVal, Value, NodesOk;
    var t := |rows| - 1;
    forall v | IsLatch(c, v)
      ensures values[v] == next[v - c.inputs - 2] && IsLit(values[v], |nodes| - 1)
    {
      assert LatchVar(c, v - c.inputs - 2) == v;
    }
    forall x, v | IsLatch(c, v)
      ensures LitVal(nodes, x, values[v]) == (v in LatchesAt(c, rows, x, t + 1))
    {
      var k := v - c.inputs - 2;
      assert LatchVar(c, k) == v;
      assert Mirrors(c, nodes, rows, t, next[k], c.nexts[k]);
    }
  }

  // ----- the solver holding the loaded part of the unrolling -----

  /** Gate k is loaded and so are all gates it reads. */
  ghost predicate FanInClosed(gates: seq<And>, loaded: seq<bool>) {
    && |loaded| == |gates|
    && (forall k, j :: 0 <= k < |gates| && 0 <= j < |gates| && loaded[k] && Reads(gates[k], gates[j].o) ==> loaded[j])
  }

  predicate Reads(g: And, n: int) {
    Abs(g.i1) == n || Abs(g.i2) == n
  }

  /** The gate computing literal `l`, if there is one, is loaded. */
  ghost predicate Rooted(gates: seq<And>, loaded: seq<bool>, n: int) {
    |loaded| == |gates| && forall j :: 0 <= j < |gates| && gates[j].o == n ==> loaded[j]
  }

  /** Permanent clauses: the constant, the loaded gates, and units `fixed`. */
  ghost predicate Holdings(f: set<Clause>, gates: seq<And>, loaded: seq<bool>, fixed: set<int>) {
    && |loaded| == |gates| && -1 in fixed
    && Units(fixed) <= f
    && (forall k :: 0 <= k < |gates| && loaded[k] ==> ClausesOf(gates[k]) <= f)
    && (forall cl :: cl in f ==> cl in Units(fixed) || exists k :: 0 <= k < |gates| && cl in ClausesOf(gates[k]))
  }

  /** In a model of a fan-in closed set of gates every rooted node has its circuit value. */
  lemma {:induction false} LoadedSound(nodes: seq<Node>, gates: seq<And>, loaded: seq<bool>, fixed: set<int>, f: set<Clause>, m: set<int>, n: int)
    requires NodesOk(nodes) && GatesListed(nodes, gates) && Holdings(f, gates, loaded, fixed) && FanInClosed(gates, loaded)
    requires Models(m, f) && 1 <= n < |nodes| && Rooted(gates, loaded, n)
    ensures n in m <==> NodeVal(nodes, m, n)
    decreases n
  {
    hide Models, ClausesOf, Units;
    if n == 1 {
      FixedHold(f, gates, loaded, fixed, m, -1);
    } else if nodes[n].AndNode? {
      var k :| 0 <= k < |gates| && gates[k].o == n;
      var g := gates[k];
      assert nodes[g.o] == AndNode(g.i1, g.i2);
      ModelsSubset(m, ClausesOf(g), f);
      ClausesMeaning(m, g);
      FanInRooted(gates, loaded, k, Abs(g.i1));
      FanInRooted(gates, loaded, k, Abs(g.i2));
      LoadedSound(nodes, gates, loaded, fixed, f, m, Abs(g.i1));
      LoadedSound(nodes, gates, loaded, fixed, f, m, Abs(g.i2));
    }
  }

  lemma FixedHold(f: set<Clause>, gates: seq<And>, loaded: seq<bool>, fixed: set<int>, m: set<int>, l: int)
    requires Holdings(f, gates, loaded, fixed) && Models(m, f) && l in fixed
    ensures Holds(m, l)
  {
    hide ClausesOf;
    ModelsSubset(m, Units(fixed), f);
    UnitsMeaning(m, fixed);
  }

  lemma FanInRooted(gates: seq<And>, loaded: seq<bool>, k: int, n: int)
    requires FanInClosed(gates, loaded) && 0 <= k < |gates| && loaded[k] && Reads(gates[k], n)
    ensures Rooted(gates, loaded, n)
  {
  }

  lemma ClausesMeaning(m: set<int>, g: And)
    requires g.o > 0 && g.i1 != 0 && g.i2 != 0
    ensures Models(m, ClausesOf(g)) <==> (g.o in m <==> Holds(m, g.i1) && Holds(m, g.i2))
  {
    GateMeaning(m, g.o, g.i1, g.i2);
  }

  /** All node values under an assignment of the unrolled inputs. */
  ghost function Valuation(nodes: seq<Node>, x: set<int>): (m: set<int>)
    requires NodesOk(nodes)
    ensures forall n :: n in m <==> 1 <= n < |nodes| && NodeVal(nodes, x, n)
  {
    set n: int | n in UpTo(|nodes| - 1) && NodeVal(nodes, x, n)
  }

  lemma ValuationHolds(nodes: seq<Node>, x: set<int>, l: int)
    requires NodesOk(nodes) && IsLit(l, |nodes| - 1)
    ensures Holds(Valuation(nodes, x), l) <==> LitVal(nodes, x, l)
  {
  }

  /** The node values form a model exactly when they satisfy the units. */
  lemma ValuationModels(nodes: seq<Node>, gates: seq<And>, loaded: seq<bool>, fixed: set<int>, f: set<Clause>, x: set<int>)
    requires NodesOk(nodes) && GatesListed(nodes, gates) && Holdings(f, gates, loaded, fixed)
    requires forall l :: l in fixed ==> IsLit(l, |nodes| - 1) && LitVal(nodes, x, l)
    ensures Models(Valuation(nodes, x), f)
  {
    hide Satisfies, ClausesOf, Units, NodeVal, Valuation;
    var m := Valuation(nodes, x);
    forall l | l in fixed
      ensures Holds(m, l)
    {
      ValuationHolds(nodes, x, l);
    }
    UnitsMeaning(m, fixed);
    forall cl | cl in f
      ensures Satisfies(m, cl)
    {
      if cl !in Units(fixed) {
        var k :| 0 <= k < |gates| && cl in ClausesOf(gates[k]);
        GateInValuation(nodes, gates, x, k);
      }
    }
  }

  lemma GateInValuation(nodes: seq<Node>, gates: seq<And>, x: set<int>, k: int)
    requires NodesOk(nodes) && GatesListed(nodes, gates) && 0 <= k < |gates|
    ensures Models(Valuation(nodes, x), ClausesOf(gates[k]))
  {
    hide ClausesOf, Models, Valuation;
    var g := gates[k];
    assert nodes[g.o] == AndNode(g.i1, g.i2);
    ClausesMeaning(Valuation(nodes, x), g);
    ValuationHolds(nodes, x, g.i1);
    ValuationHolds(nodes, x, g.i2);
    ValuationHolds(nodes, x, g.o);
  }

  /** State of the backward walk at gate i: everything needed above i is loaded. */
  ghost predicate Walked(gates: seq<And>, loaded: seq<bool>, needed: set<int>, open: set<int>, i: int) {
    && |loaded| == |gates| && 0 <= i <= |gates|
    && (forall j :: i <= j < |gates| && gates[j].o in needed ==> loaded[j])
    && (forall j :: 0 <= j < i && gates[j].o in needed ==> gates[j].o in open)
    && (forall k, j :: 0 <= k < |gates| && 0 <= j < |gates| && loaded[k] && Reads(gates[k], gates[j].o) ==>
          loaded[j] || gates[j].o in needed)
  }

  lemma WalkStep(nodes: seq<Node>, gates: seq<And>, loaded: seq<bool>, needed: set<int>, open: set<int>, i: int)
    requires NodesOk(nodes) && GatesListed(nodes, gates) && Walked(gates, loaded, needed, open, i + 1) && 0 <= i < |gates|
    requires !loaded[i] && gates[i].o in open
    ensures var g := gates[i]; var fan := {Abs(g.i1), Abs(g.i2)};
      Walked(gates, loaded[i := true], needed + fan, (open - {g.o}) + fan, i)
  {
    var g := gates[i];
    var fan := {Abs(g.i1), Abs(g.i2)};
    assert nodes[g.o] == AndNode(g.i1, g.i2);
    forall j | 0 <= j < |gates| && gates[j].o in fan
      ensures j < i
    {
      assert gates[j].o < g.o;
    }
  }

  /** A root or a fan-in of a gate that was loaded now. */
  ghost predicate Wanted(gates: seq<And>, loaded: seq<bool>, loaded': seq<bool>, roots: set<int>, n: int)
    requires |loaded| == |loaded'| == |gates|
  {
    n in roots || exists h :: 0 <= h < |gates| && loaded'[h] && !loaded[h] && Reads(gates[h], n)
  }

  ghost predicate OnlyWanted(gates: seq<And>, loaded: seq<bool>, loaded': seq<bool>, roots: set<int>)
    requires |loaded| == |loaded'| == |gates|
  {
    forall k :: 0 <= k < |gates| && loaded'[k] && !loaded[k] ==> Wanted(gates, loaded, loaded', roots, gates[k].o)
  }

  lemma WantedStep(gates: seq<And>, loaded: seq<bool>, loaded': seq<bool>, roots: set<int>, open: set<int>, i: int)
    requires |loaded| == |loaded'| == |gates| && 0 <= i < |gates| && gates[i].o in open
    requires OnlyWanted(gates, loaded, loaded', roots) && !loaded'[i] && !loaded[i] && forall n :: n in open ==> Wanted(gates, loaded, loaded', roots, n)
    ensures var g := gates[i]; var more := loaded'[i := true];
      OnlyWanted(gates, loaded, more, roots) && forall n :: n in (open - {g.o}) + {Abs(g.i1), Abs(g.i2)} ==> Wanted(gates, loaded, more, roots, n)
  {
    var g, more := gates[i], loaded'[i := true];
    forall n | Wanted(gates, loaded, loaded', roots, n)
      ensures Wanted(gates, loaded, more, roots, n)
    {
      if n !in roots {
        var h :| 0 <= h < |gates| && loaded'[h] && !loaded[h] && Reads(gates[h], n);
        assert more[h];
      }
    }
    forall n | n == Abs(g.i1) || n == Abs(g.i2)
      ensures Wanted(gates, loaded, more, roots, n)
    {
      assert more[i] && Reads(gates[i], n);
    }
    hide Wanted;
  }

  /** Loads the cone of the given nodes into the solver, skipping gates loaded in earlier frames. */
  method LoadCone(nodes: seq<Node>, gates: seq<And>, loaded: seq<bool>, f: set<Clause>, roots: set<int>, ghost fixed: set<int>)
    returns (loaded': seq<bool>, f': set<Clause>)
    requires NodesOk(nodes) && GatesListed(nodes, gates) && FanInClosed(gates, loaded) && Holdings(f, gates, loaded, fixed)
    ensures |loaded'| == |gates| && FanInClosed(gates, loaded') && Holdings(f', gates, loaded', fixed)
    ensures forall n :: n in roots ==> Rooted(gates, loaded', n)
    ensures forall k :: 0 <= k < |gates| && loaded[k] ==> loaded'[k]
    ensures OnlyWanted(gates, loaded, loaded', roots)
  {
    hide ClausesOf, Units, Wanted, OnlyWanted;
    assert OnlyWanted(gates, loaded, loaded, roots) && forall n :: n in roots ==> Wanted(gates, loaded, loaded, roots, n) by {
      RootsWanted(gates, loaded, roots);
    }
    loaded', f' := loaded, f;
    var open := roots;
    ghost var needed := roots;
    var i := |gates|;
    while i > 0
      invariant Walked(gates, loaded', needed, open, i) && Holdings(f', gates, loaded', fixed)
      invariant roots <= needed
      invariant forall k :: 0 <= k < |gates| && loaded[k] ==> loaded'[k]
      invariant OnlyWanted(gates, loaded, loaded', roots) && forall n :: n in open ==> Wanted(gates, loaded, loaded', roots, n)
    {
      i := i - 1;
      var g := gates[i];
      if !loaded'[i] && g.o in open {
        WalkStep(nodes, gates, loaded', needed, open, i);
        LoadGate(f', gates, loaded', fixed, i);
        WantedStep(gates, loaded, loaded', roots, open, i);
        open := (open - {g.o}) + {Abs(g.i1), Abs(g.i2)};
        needed := needed + {Abs(g.i1), Abs(g.i2)};
        loaded' := loaded'[i := true];
        f' := f' + ClausesOf(g);
      }
    }
  }

  lemma RootsWanted(gates: seq<And>, loaded: seq<bool>, roots: set<int>)
    requires |loaded| == |gates|
    ensures OnlyWanted(gates, loaded, loaded, roots) && forall n :: n in roots ==> Wanted(gates, loaded, loaded, roots, n)
  {
  }

  lemma LoadGate(f: set<Clause>, gates: seq<And>, loaded: seq<bool>, fixed: set<int>, i: int)
    requires Holdings(f, gates, loaded, fixed) && 0 <= i < |gates|
    ensures Holdings(f + ClausesOf(gates[i]), gates, loaded[i := true], fixed)
  {
    hide ClausesOf, Units;
  }

  // ----- one frame -----

  lemma LoadedGrow(nodes: seq<Node>, gates: seq<And>, gates': seq<And>, loaded: seq<bool>, f: set<Clause>, fixed: set<int>)
    requires NodesOk(nodes) && GatesListed(nodes, gates') && gates <= gates'
    requires FanInClosed(gates, loaded) && Holdings(f, gates, loaded, fixed)
    ensures var more := seq(|gates'| - |gates|, i => false);
      FanInClosed(gates', loaded + more) && Holdings(f, gates', loaded + more, fixed)
  {
    hide ClausesOf, Units;
    var more := seq(|gates'| - |gates|, i => false);
    var ld := loaded + more;
    forall k, j | 0 <= k < |gates'| && 0 <= j < |gates'| && ld[k] && Reads(gates'[k], gates'[j].o)
      ensures ld[j]
    {
      assert k < |gates| && gates'[k] == gates[k];
      assert nodes[gates'[k].o] == AndNode(gates'[k].i1, gates'[k].i2);
      assert gates'[j].o < gates'[k].o;
      assert j < k;
      assert gates'[j] == gates[j];
    }
    forall cl | cl in f && cl !in Units(fixed)
      ensures exists k :: 0 <= k < |gates'| && cl in ClausesOf(gates'[k])
    {
      var k :| 0 <= k < |gates| && cl in ClausesOf(gates[k]);
      assert gates'[k] == gates[k];
    }
  }

  /** Gates added later sit on later nodes. */
  lemma NewGatesAbove(nodes: seq<Node>, nodes': seq<Node>, gates: seq<And>, gates': seq<And>, j: int)
    requires NodesOk(nodes) && NodesOk(nodes') && GatesListed(nodes, gates) && GatesListed(nodes', gates')
    requires nodes <= nodes' && gates <= gates' && |gates| <= j < |gates'|
    ensures gates'[j].o >= |nodes|
  {
    var n := gates'[j].o;
    assert forall k :: 0 <= k < |gates| ==> gates'[k] == gates[k];
  }

  lemma RootedGrow(nodes: seq<Node>, nodes': seq<Node>, gates: seq<And>, gates': seq<And>, loaded: seq<bool>, n: int)
    requires NodesOk(nodes) && NodesOk(nodes') && GatesListed(nodes, gates) && GatesListed(nodes', gates')
    requires nodes <= nodes' && gates <= gates' && Rooted(gates, loaded, n) && n < |nodes|
    ensures Rooted(gates', loaded + seq(|gates'| - |gates|, i => false), n)
  {
    forall j | 0 <= j < |gates'| && gates'[j].o == n
      ensures (loaded + seq(|gates'| - |gates|, i => false))[j]
    {
      if j >= |gates| {
        NewGatesAbove(nodes, nodes', gates, gates', j);
      } else {
        assert gates'[j] == gates[j];
      }
    }
  }

  lemma UnitsAdded(f: set<Clause>, gates: seq<And>, loaded: seq<bool>, fixed: set<int>, more: set<int>)
    requires Holdings(f, gates, loaded, fixed)
    ensures Holdings(f + Units(more), gates, loaded, fixed + more)
  {
    hide ClausesOf;
    assert Units(fixed + more) == Units(fixed) + Units(more);
  }

  /** The run described by `x` meets the constraints in the first `m` frames and is not bad in the
      first `n`. */
  ghost predicate Clean(c: Aig, rows: seq<seq<int>>, x: set<int>, m: int, n: int)
    requires WellFormed(c) && RowsOk(c, rows) && m <= |rows| && n <= |rows|
  {
    && (forall t :: 0 <= t < m ==> Constrained(c, EnvAt(c, rows, x, t)))
    && (forall t :: 0 <= t < n ==> !Bad(c, EnvAt(c, rows, x, t)))
  }

  ghost predicate AllTrue(nodes: seq<Node>, x: set<int>, ls: set<int>)
    requires NodesOk(nodes)
  {
    forall l :: l in ls ==> IsLit(l, |nodes| - 1) && LitVal(nodes, x, l)
  }

  /** The units in the solver say exactly that the run is clean. */
  ghost predicate UnitsMean(c: Aig, nodes: seq<Node>, rows: seq<seq<int>>, fixed: set<int>, m: int, n: int)
    requires WellFormed(c) && NodesOk(nodes) && RowsOk(c, rows) && m <= |rows| && n <= |rows|
  {
    && (forall l :: l in fixed ==> IsLit(l, |nodes| - 1))
    && (forall x :: AllTrue(nodes, x, fixed) <==> Clean(c, rows, x, m, n))
  }

  lemma UnitsGrow(c: Aig, nodes: seq<Node>, nodes': seq<Node>, rows: seq<seq<int>>, rows': seq<seq<int>>, fixed: set<int>, m: int, n: int)
    requires WellFormed(c) && NodesOk(nodes) && NodesOk(nodes') && nodes <= nodes' && rows <= rows'
    requires RowsOk(c, rows) && RowsOk(c, rows') && 0 <= m <= |rows| && 0 <= n <= |rows| && UnitsMean(c, nodes, rows, fixed, m, n)
    ensures UnitsMean(c, nodes', rows', fixed, m, n)
  {
    hide NodesOk, LitVal, EnvAt, Bad, Constrained;
    var more, new_ := nodes'[|nodes|..], rows'[|rows|..];
    assert nodes' == nodes + more && rows' == rows + new_;
    forall x
      ensures AllTrue(nodes', x, fixed) <==> Clean(c, rows', x, m, n)
    {
      forall l | l in fixed
        ensures LitVal(nodes', x, l) == LitVal(nodes, x, l)
      {
        LitValPrefix(nodes, more, x, l);
      }
      forall t | 0 <= t < |rows|
        ensures EnvAt(c, rows', x, t) == EnvAt(c, rows, x, t)
      {
        EnvPrefix(c, rows, new_, x, t);
      }
      assert AllTrue(nodes, x, fixed) <==> Clean(c, rows, x, m, n);
    }
  }

  /** Adding the constraint literals of frame `m`. */
  lemma UnitsConstrain(c: Aig, nodes: seq<Node>, rows: seq<seq<int>>, fixed: set<int>, m: int, n: int, row: seq<int>)
    requires WellFormed(c) && NodesOk(nodes) && RowsOk(c, rows) && 0 <= m < |rows| && 0 <= n <= |rows| && UnitsMean(c, nodes, rows, fixed, m, n)
    requires |row| == |c.constraints| && forall k :: 0 <= k < |row| ==> Mirrors(c, nodes, rows, m, row[k], c.constraints[k])
    ensures UnitsMean(c, nodes, rows, fixed + Range(row), m + 1, n)
  {
    hide NodesOk, LitVal, EnvAt, Bad, Value;
    forall l | l in Range(row)
      ensures IsLit(l, |nodes| - 1)
    {
      var k :| 0 <= k < |row| && row[k] == l;
      assert Mirrors(c, nodes, rows, m, row[k], c.constraints[k]);
    }
    forall x
      ensures AllTrue(nodes, x, fixed + Range(row)) <==> Clean(c, rows, x, m + 1, n)
    {
      RowMeaning(c, nodes, rows, m, row, x);
      assert AllTrue(nodes, x, fixed) <==> Clean(c, rows, x, m, n);
    }
  }

  lemma RowMeaning(c: Aig, nodes: seq<Node>, rows: seq<seq<int>>, m: int, row: seq<int>, x: set<int>)
    requires WellFormed(c) && NodesOk(nodes) && RowsOk(c, rows) && 0 <= m < |rows|
    requires |row| == |c.constraints| && forall k :: 0 <= k < |row| ==> Mirrors(c, nodes, rows, m, row[k], c.constraints[k])
    ensures AllTrue(nodes, x, Range(row)) <==> Constrained(c, EnvAt(c, rows, x, m))
  {
    hide NodesOk, LitVal, EnvAt, Value;
    forall k | 0 <= k < |row|
      ensures row[k] in Range(row) && IsLit(row[k], |nodes| - 1)
      ensures LitVal(nodes, x, row[k]) == Value(c, EnvAt(c, rows, x, m), c.constraints[k])
    {
      assert Mirrors(c, nodes, rows, m, row[k], c.constraints[k]);
    }
  }

  /** Adding the negated bad literal of frame `n`. */
  lemma UnitsNotBad(c: Aig, nodes: seq<Node>, rows: seq<seq<int>>, fixed: set<int>, m: int, n: int, o: int)
    requires WellFormed(c) && NodesOk(nodes) && RowsOk(c, rows) && 0 <= m <= |rows| && 0 <= n < |rows| && UnitsMean(c, nodes, rows, fixed, m, n)
    requires Mirrors(c, nodes, rows, n, o, c.bad)
    ensures UnitsMean(c, nodes, rows, fixed + {-o}, m, n + 1)
  {
    hide NodesOk, LitVal, EnvAt, Value, Constrained;
    var more, next := fixed + {-o}, n + 1;
    forall x
      ensures AllTrue(nodes, x, more) <==> Clean(c, rows, x, m, next)
    {
      LitNeg(nodes, x, o);
      assert AllTrue(nodes, x, fixed) <==> Clean(c, rows, x, m, n);
    }
  }

  lemma UnitsStart(c: Aig, nodes: seq<Node>)
    requires WellFormed(c) && NodesOk(nodes)
    ensures UnitsMean(c, nodes, [], {-1}, 0, 0)
  {
    var one: set<int> := {-1};
    forall x
      ensures AllTrue(nodes, x, one)
    {
      ConstantNode(nodes, x);
    }
  }

  /** A clean run that is bad in the last frame is a counterexample. */
  lemma CleanBadIsCounterexample(c: Aig, rows: seq<seq<int>>, x: set<int>, n: int)
    requires WellFormed(c) && RowsOk(c, rows) && |rows| > 0 && n <= |rows| && Clean(c, rows, x, |rows|, n)
    requires Bad(c, EnvAt(c, rows, x, |rows| - 1))
    ensures IsCounterexample(c, RunOf(c, rows, x))
  {
    hide EnvAt, Constrained, Follows, AllHold, Bad;
    RunFollows(c, rows, x);
  }

  /** Counterexamples of exactly `n` states, and the length of a shortest one. */
  ghost predicate CexOfLength(c: Aig, n: int)
    requires WellFormed(c)
  {
    exists tr :: |tr| == n && IsCounterexample(c, tr)
  }

  ghost predicate ShortestCex(c: Aig, n: int)
    requires WellFormed(c)
  {
    CexOfLength(c, n) && forall j :: j < n ==> !CexOfLength(c, j)
  }

  lemma ShortestHasNoEarlierBad(c: Aig, n: int, tr: seq<set<int>>, j: int)
    requires WellFormed(c) && ShortestCex(c, n) && |tr| == n && IsCounterexample(c, tr) && 0 <= j < n - 1
    ensures !Bad(c, tr[j])
  {
    hide Constrained, Follows, Bad, AllHold;
    var pre := tr[..j + 1];
    assert pre[|pre| - 1] == tr[j];
    assert IsCounterexample(c, pre) <==> Bad(c, tr[j]);
    assert !CexOfLength(c, |pre|);
  }

  /** A trace to bad with no earlier bad state is a clean run of the unrolling. */
  lemma CounterexampleIsClean(c: Aig, rows: seq<seq<int>>, tr: seq<set<int>>)
    requires WellFormed(c) && RowsOk(c, rows) && RowsDistinct(c, rows) && |rows| == |tr| > 0
    requires IsCounterexample(c, tr) && forall j :: 0 <= j < |tr| - 1 ==> !Bad(c, tr[j])
    ensures Clean(c, rows, Describe(c, rows, tr), |rows|, |rows| - 1)
    ensures Bad(c, EnvAt(c, rows, Describe(c, rows, tr), |rows| - 1))
  {
    hide EnvAt, Constrained, Follows, AllHold, Describe, RowsDistinct, Bad;
    var x := Describe(c, rows, tr);
    forall t | 0 <= t < |rows|
      ensures Constrained(c, EnvAt(c, rows, x, t)) && (Bad(c, EnvAt(c, rows, x, t)) <==> Bad(c, tr[t]))
    {
      DescribeSame(c, rows, tr, t);
      SemanticsSame(c, EnvAt(c, rows, x, t), tr[t]);
    }
  }

  // ----- the search -----

  /** A printed witness: initial latches and the inputs of every frame. */
  datatype Trace = Trace(latches: set<int>, inputs: seq<set<int>>)

  ghost predicate Shows(c: Aig, w: Trace, tr: seq<set<int>>) {
    && |w.inputs| == |tr| > 0
    && (forall v :: IsLatch(c, v) ==> (v in w.latches <==> v in tr[0]))
    && (forall t, v :: 0 <= t < |tr| && IsInput(c, v) ==> (v in w.inputs[t] <==> v in tr[t]))
  }

  datatype Result = Found(frame: int, shown: Trace) | NotFound | Stopped(reason: Reason)

  /** Why the search ends without an answer: another thread has one, the solver was interrupted, or the
      unrolled circuit is too large. */
  datatype Reason = AnswerKnown | Interrupted | TooLarge(node: int)

  /** Everything that holds between frames. */
  ghost predicate Searching(u: Unroller, loaded: seq<bool>, f: set<Clause>, fixed: set<int>)
    reads u
  {
    && u.Valid() && |loaded| == |u.gates|
    && FanInClosed(u.gates, loaded) && Holdings(f, u.gates, loaded, fixed)
    && UnitsMean(u.c, u.nodes, u.rows, fixed, |u.rows|, |u.rows|)
    && (forall l :: l in fixed ==> Rooted(u.gates, loaded, Abs(l)))
  }

  lemma HoldingsWithin(nodes: seq<Node>, gates: seq<And>, loaded: seq<bool>, f: set<Clause>, fixed: set<int>)
    requires NodesOk(nodes) && GatesListed(nodes, gates) && Holdings(f, gates, loaded, fixed)
    requires forall l :: l in fixed ==> IsLit(l, |nodes| - 1)
    ensures AllWithin(f, |nodes| - 1)
  {
    hide ClausesOf;
    forall cl | cl in f
      ensures Within(cl, |nodes| - 1)
    {
      if cl !in Units(fixed) {
        var k :| 0 <= k < |gates| && cl in ClausesOf(gates[k]);
        assert nodes[gates[k].o] == AndNode(gates[k].i1, gates[k].i2);
        ClausesWithin(gates[k], |nodes| - 1);
      }
    }
  }

  lemma ClausesWithin(g: And, n: int)
    requires IsLit(g.o, n) && IsLit(g.i1, n) && IsLit(g.i2, n)
    ensures AllWithin(ClausesOf(g), n)
  {
  }

  /** In a model of the solver the fixed and all rooted literals have their circuit value. */
  lemma ModelValues(nodes: seq<Node>, gates: seq<And>, loaded: seq<bool>, f: set<Clause>, fixed: set<int>, m: set<int>, l: int)
    requires NodesOk(nodes) && GatesListed(nodes, gates) && Holdings(f, gates, loaded, fixed) && FanInClosed(gates, loaded)
    requires Models(m, f) && IsLit(l, |nodes| - 1) && Rooted(gates, loaded, Abs(l))
    ensures LitVal(nodes, m, l) <==> Holds(m, l)
  {
    hide Models, Holdings, NodeVal, GatesListed, FanInClosed;
    LoadedSound(nodes, gates, loaded, fixed, f, m, Abs(l));
  }

  lemma ModelIsClean(c: Aig, nodes: seq<Node>, gates: seq<And>, loaded: seq<bool>, f: set<Clause>, fixed: set<int>,
                     rows: seq<seq<int>>, n: int, m: set<int>)
    requires WellFormed(c) && NodesOk(nodes) && GatesListed(nodes, gates) && RowsOk(c, rows) && 0 <= n <= |rows|
    requires Holdings(f, gates, loaded, fixed) && FanInClosed(gates, loaded) && UnitsMean(c, nodes, rows, fixed, |rows|, n)
    requires (forall l :: l in fixed ==> Rooted(gates, loaded, Abs(l))) && Models(m, f)
    ensures Clean(c, rows, m, |rows|, n)
  {
    hide Models, NodeVal, GatesListed, FanInClosed, LitVal, Rooted, Clean;
    forall l | l in fixed
      ensures LitVal(nodes, m, l)
    {
      ModelValues(nodes, gates, loaded, f, fixed, m, l);
      FixedHold(f, gates, loaded, fixed, m, l);
    }
    assert AllTrue(nodes, m, fixed);
  }

  /** If the query for frame |rows| fails, no shortest counterexample has that length. */
  lemma UnsatNoShortest(c: Aig, nodes: seq<Node>, gates: seq<And>, loaded: seq<bool>, f: set<Clause>, fixed: set<int>,
                        rows: seq<seq<int>>, o: int, core: set<int>)
    requires WellFormed(c) && NodesOk(nodes) && GatesListed(nodes, gates) && RowsOk(c, rows) && RowsDistinct(c, rows) && |rows| > 0
    requires Holdings(f, gates, loaded, fixed) && UnitsMean(c, nodes, rows, fixed, |rows|, |rows| - 1)
    requires Mirrors(c, nodes, rows, |rows| - 1, o, c.bad)
    requires core <= {o} && forall m :: Models(m, f) ==> !AllHold(m, core)
    ensures !ShortestCex(c, |rows|)
  {
    hide Models, Holdings, NodeVal, GatesListed, LitVal, Clean, EnvAt, IsCounterexample, RowsDistinct, Describe;
    if ShortestCex(c, |rows|) {
      var tr :| |tr| == |rows| && IsCounterexample(c, tr);
      forall j | 0 <= j < |tr| - 1
        ensures !Bad(c, tr[j])
      {
        ShortestHasNoEarlierBad(c, |rows|, tr, j);
      }
      CounterexampleIsClean(c, rows, tr);
      var x := Describe(c, rows, tr);
      assert AllTrue(nodes, x, fixed);
      ValuationModels(nodes, gates, loaded, fixed, f, x);
      ValuationHolds(nodes, x, o);
    }
  }

  function WitnessOf(c: Aig, rows: seq<seq<int>>, m: set<int>): (w: Trace)
    requires forall t :: 0 <= t < |rows| ==> |rows[t]| == c.inputs
  {
    Trace(set v | v in UpTo(Leaves(c)) && IsLatch(c, v) && (v in c.reset || (-v !in c.reset && InitNode(c, v) in m)),
          seq(|rows|, t requires 0 <= t < |rows| => set v | v in UpTo(Leaves(c)) && IsInput(c, v) && rows[t][v - 2] in m))
  }

  lemma WitnessShows(c: Aig, rows: seq<seq<int>>, m: set<int>)
    requires WellFormed(c) && RowsOk(c, rows) && |rows| > 0
    ensures Shows(c, WitnessOf(c, rows, m), RunOf(c, rows, m))
  {
    hide NextLatches;
    var w, tr := WitnessOf(c, rows, m), RunOf(c, rows, m);
    forall t, v | 0 <= t < |tr| && IsInput(c, v)
      ensures v in w.inputs[t] <==> v in tr[t]
    {
      LatchesAreLatches(c, rows, m, t);
      assert !IsLatch(c, v);
      assert v in UpTo(Leaves(c));
    }
    forall v | IsLatch(c, v)
      ensures v in w.latches <==> v in tr[0]
    {
      assert !IsInput(c, v) && v in UpTo(Leaves(c));
      assert v in InitialLatches(c, m) <==> StartsTrue(c, m, v);
    }
  }

  /** One frame: unroll it, load what the bad literal and the constraints need, and search it unless
      it belongs to another thread; a frame without counterexample is closed by a unit. */
  method SolveFrame(u: Unroller, loaded: seq<bool>, f: set<Clause>, search: bool, interrupted: bool, ghost fixed: set<int>)
    returns (r: Result, loaded': seq<bool>, f': set<Clause>, ghost fixed': set<int>)
    requires Searching(u, loaded, f, fixed)
    modifies u
    ensures u.Valid() && |u.rows| == old(|u.rows|) + 1
    ensures old(u.outputs) <= u.outputs && |u.nodes| <= old(|u.nodes|) + u.c.inputs + |u.c.ands|
    ensures r.Found? ==> r.frame == |u.rows| && exists tr :: |tr| == r.frame && IsCounterexample(u.c, tr) && Shows(u.c, r.shown, tr)
    ensures r.NotFound? ==> Searching(u, loaded', f', fixed')
    ensures r.NotFound? && search ==> !ShortestCex(u.c, |u.rows|)
    ensures r.Stopped? <==> search && interrupted
    ensures r.Found? ==> search
    ensures r.Stopped? ==> r.reason.Interrupted?
  {
    hide NodesOk, LatchesReady, UnitsMean, Holdings, FanInClosed, Rooted, Units, IsCounterexample, Shows, Mirrors,
      RowsDistinct, RowNodes, ShortestCex, Correct, GatesListed, NoDuplicates, HashOk, WitnessOf, RunOf;
    ghost var n0, g0, r0 := u.nodes, u.gates, u.rows;
    ghost var c := u.c;
    u.Unfold();
    var o, row := u.outputs[|u.outputs| - 1], u.cons[|u.cons| - 1];
    loaded' := loaded + seq(|u.gates| - |loaded|, i => false);
    Prepared(c, n0, u.nodes, g0, u.gates, r0, u.rows, loaded, f, fixed, row);
    f' := f + Units(Range(row));
    fixed' := fixed + Range(row);
    loaded', f' := LoadCone(u.nodes, u.gates, loaded', f', {Abs(o)} + Vars(Range(row)), fixed');
    RootsKept(u.gates, loaded + seq(|u.gates| - |loaded|, i => false), loaded', fixed, Range(row), {Abs(o)} + Vars(Range(row)));
    if search {
      if interrupted {
        r := Stopped(Interrupted);
        return;
      }
      var b := {o};
      assert IsLit(o, |u.nodes| - 1) by {
        MirrorLit(c, u.nodes, u.rows, |u.rows| - 1, o);
      }
      UnitLits(c, u.nodes, u.rows, fixed', |u.rows|, |u.rows| - 1);
      HoldingsWithin(u.nodes, u.gates, loaded', f', fixed');
      var a := Solve(f', b, |u.nodes| - 1);
      if a.Sat? {
        r := Found(|u.rows|, WitnessOf(u.c, u.rows, a.model));
        FoundCounterexample(c, u.nodes, u.gates, loaded', f', fixed', u.rows, o, a.model);
        return;
      }
      assert !ShortestCex(c, |u.rows|) by {
        CorrectUnsat(f', b, a);
        UnsatNoShortest(c, u.nodes, u.gates, loaded', f', fixed', u.rows, o, a.core);
      }
    }
    r := NotFound;
    UnitsAdded(f', u.gates, loaded', fixed', {-o});
    UnitsNotBad(c, u.nodes, u.rows, fixed', |u.rows|, |u.rows| - 1, o);
    f' := f' + Units({-o});
    fixed' := fixed' + {-o};
  }

  lemma CorrectUnsat(f: set<Clause>, b: set<int>, a: Answer)
    requires Correct(f, b, a) && a.Unsat?
    ensures a.core <= b && forall m :: Models(m, f) ==> !AllHold(m, a.core)
  {
  }

  lemma MirrorLit(c: Aig, nodes: seq<Node>, rows: seq<seq<int>>, t: nat, o: int)
    requires WellFormed(c) && NodesOk(nodes) && RowsOk(c, rows) && t < |rows| && Mirrors(c, nodes, rows, t, o, c.bad)
    ensures IsLit(o, |nodes| - 1)
  {
  }

  lemma UnitLits(c: Aig, nodes: seq<Node>, rows: seq<seq<int>>, fixed: set<int>, m: int, n: int)
    requires WellFormed(c) && NodesOk(nodes) && RowsOk(c, rows) && m <= |rows| && n <= |rows| && UnitsMean(c, nodes, rows, fixed, m, n)
    ensures forall l :: l in fixed ==> IsLit(l, |nodes| - 1)
  {
  }

  lemma FoundCounterexample(c: Aig, nodes: seq<Node>, gates: seq<And>, loaded: seq<bool>, f: set<Clause>, fixed: set<int>,
                            rows: seq<seq<int>>, o: int, m: set<int>)
    requires WellFormed(c) && NodesOk(nodes) && GatesListed(nodes, gates) && RowsOk(c, rows) && |rows| > 0
    requires Holdings(f, gates, loaded, fixed) && FanInClosed(gates, loaded) && UnitsMean(c, nodes, rows, fixed, |rows|, |rows| - 1)
    requires (forall l :: l in fixed ==> Rooted(gates, loaded, Abs(l))) && Rooted(gates, loaded, Abs(o))
    requires Mirrors(c, nodes, rows, |rows| - 1, o, c.bad) && Correct(f, {o}, Sat(m))
    ensures exists tr :: |tr| == |rows| && IsCounterexample(c, tr) && Shows(c, WitnessOf(c, rows, m), tr)
  {
    hide Models, NodeVal, GatesListed, FanInClosed, LitVal, Rooted, Clean, Holdings, UnitsMean, EnvAt, IsCounterexample, Shows, WitnessOf, Value, NodesOk;
    ModelIsClean(c, nodes, gates, loaded, f, fixed, rows, |rows| - 1, m);
    ModelValues(nodes, gates, loaded, f, fixed, m, o);
    assert o in {o};
    CleanBadIsCounterexample(c, rows, m, |rows| - 1);
    WitnessShows(c, rows, m);
    assert |RunOf(c, rows, m)| == |rows|;
  }

  lemma Prepared(c: Aig, nodes: seq<Node>, nodes': seq<Node>, gates: seq<And>, gates': seq<And>, rows: seq<seq<int>>, rows': seq<seq<int>>,
                 loaded: seq<bool>, f: set<Clause>, fixed: set<int>, row: seq<int>)
    requires WellFormed(c) && NodesOk(nodes) && NodesOk(nodes') && nodes <= nodes' && gates <= gates' && rows <= rows'
    requires GatesListed(nodes, gates) && GatesListed(nodes', gates') && RowsOk(c, rows) && RowsOk(c, rows') && |rows'| == |rows| + 1
    requires FanInClosed(gates, loaded) && Holdings(f, gates, loaded, fixed) && UnitsMean(c, nodes, rows, fixed, |rows|, |rows|)
    requires forall l :: l in fixed ==> Rooted(gates, loaded, Abs(l))
    requires |row| == |c.constraints| && forall k :: 0 <= k < |row| ==> Mirrors(c, nodes', rows', |rows|, row[k], c.constraints[k])
    ensures |loaded| == |gates|
    ensures var ld := loaded + seq(|gates'| - |loaded|, i => false);
      && FanInClosed(gates', ld) && Holdings(f + Units(Range(row)), gates', ld, fixed + Range(row))
      && UnitsMean(c, nodes', rows', fixed + Range(row), |rows'|, |rows|)
      && (forall l :: l in fixed ==> Rooted(gates', ld, Abs(l)))
  {
    hide NodesOk, UnitsMean, Holdings, Mirrors, GatesListed, Units;
    LoadedGrow(nodes', gates, gates', loaded, f, fixed);
    var ld := loaded + seq(|gates'| - |loaded|, i => false);
    UnitsAdded(f, gates', ld, fixed, Range(row));
    UnitsGrow(c, nodes, nodes', rows, rows', fixed, |rows|, |rows|);
    UnitsConstrain(c, nodes', rows', fixed, |rows|, |rows|, row);
    UnitLits(c, nodes, rows, fixed, |rows|, |rows|);
    forall l | l in fixed
      ensures Rooted(gates', ld, Abs(l))
    {
      RootedGrow(nodes, nodes', gates, gates', loaded, Abs(l));
    }
  }

  lemma RootsKept(gates: seq<And>, loaded: seq<bool>, loaded': seq<bool>, fixed: set<int>, more: set<int>, roots: set<int>)
    requires |loaded| == |gates| == |loaded'| && forall k :: 0 <= k < |gates| && loaded[k] ==> loaded'[k]
    requires (forall l :: l in fixed ==> Rooted(gates, loaded, Abs(l))) && (forall n :: n in roots ==> Rooted(gates, loaded', n))
    requires Vars(more) <= roots
    ensures forall l :: l in fixed + more ==> Rooted(gates, loaded', Abs(l))
  {
    forall l | l in more
      ensures Abs(l) in roots
    {
      assert Abs(l) in Vars(more);
    }
  }

  /** Frames are dealt out to the threads in turn. */
  predicate Mine(threads: nat, index: int, k: nat)
    requires threads > 0
  {
    threads == 1 || k % threads == index
  }

  /** The unrolled bad literals of the first frames, among nodes as many as these frames can need. */
  ghost predicate BadLiterals(c: Aig, outputs: seq<int>)
    requires WellFormed(c)
  {
    exists nodes, rows, cons :: IsUnrolling(c, nodes, rows, outputs, cons)
  }

  ghost predicate IsUnrolling(c: Aig, nodes: seq<Node>, rows: seq<seq<int>>, outputs: seq<int>, cons: seq<seq<int>>)
    requires WellFormed(c)
  {
    && NodesOk(nodes) && RowsOk(c, rows) && |outputs| == |rows| && HistoryOk(c, nodes, rows, outputs, cons)
    && |nodes| <= 2 + c.latches + |rows| * (c.inputs + |c.ands|)
  }

  /** A literal that stands for bad in frame `k` is bounded by what `k` frames can build. */
  lemma BadBounded(c: Aig, outputs: seq<int>)
    requires WellFormed(c) && BadLiterals(c, outputs) && outputs != []
    ensures 1 <= Abs(outputs[|outputs| - 1]) <= 1 + c.latches + |outputs| * (c.inputs + |c.ands|)
  {
    var nodes, rows, cons :| IsUnrolling(c, nodes, rows, outputs, cons);
    assert Mirrors(c, nodes, rows, |outputs| - 1, outputs[|outputs| - 1], c.bad);
  }

  lemma Unrolled(c: Aig, nodes: seq<Node>, rows: seq<seq<int>>, outputs: seq<int>, cons: seq<seq<int>>)
    requires WellFormed(c) && IsUnrolling(c, nodes, rows, outputs, cons)
    ensures BadLiterals(c, outputs) && (outputs != [] ==> Abs(outputs[|outputs| - 1]) <= 1 + c.latches + |outputs| * (c.inputs + |c.ands|))
  {
    hide IsUnrolling;
    if outputs != [] {
      BadBounded(c, outputs);
    }
  }

  lemma OneMoreFrame(n: nat, d: nat, k: nat)
    ensures n + (d + 1) * k == n + d * k + k
  {
  }

  /** The whole search of one thread; `done` frames are completed without a counterexample.  A reported
      counterexample is real, and a shortest one is reported at its own length by the thread responsible
      for that frame unless the search stops before: `known(k)` tells whether another thread has an
      answer when frame `k` starts, `interrupted(k)` whether the solver gives up in that frame.  It stops
      as soon as the bad literal of a completed frame exceeds the limit; `bads` are these literals. */
  method CheckFrames(c: Aig, frames: nat, threads: nat, index: int, maxNodes: int, known: nat -> bool, interrupted: nat -> bool)
    returns (r: Result, done: nat, ghost bads: seq<int>)
    requires WellFormed(c) && threads > 0
    ensures done <= frames
    ensures r.Found? ==> r.frame == done + 1 && exists tr :: |tr| == r.frame && IsCounterexample(c, tr) && Shows(c, r.shown, tr)
    ensures forall k :: 1 <= k <= done && Mine(threads, index, k) ==> !ShortestCex(c, k)
    ensures forall k :: 1 <= k <= frames && Mine(threads, index, k) && ShortestCex(c, k) ==>
              (r.Found? && r.frame == k) || (r.Stopped? && done < k)
    ensures r.NotFound? ==> done == frames
    ensures forall k :: 1 <= k <= (if r.Found? then done + 1 else done) ==> !known(k) && !(Mine(threads, index, k) && interrupted(k))
    ensures r.Found? ==> Mine(threads, index, done + 1)
    ensures r == Stopped(AnswerKnown) ==> done < frames && known(done + 1)
    ensures r == Stopped(Interrupted) ==> done < frames && Mine(threads, index, done + 1) && interrupted(done + 1)
    ensures BadLiterals(c, bads) && |bads| == done
    ensures forall k :: 0 <= k < done ==> (Abs(bads[k]) > maxNodes <==> r.Stopped? && r.reason.TooLarge? && k == done - 1)
    ensures r.Stopped? && r.reason.TooLarge? ==>
              done >= 1 && r.reason.node == bads[done - 1] && maxNodes < Abs(r.reason.node) <= 1 + c.latches + done * (c.inputs + |c.ands|)
  {
    hide NodesOk, LatchesReady, UnitsMean, Holdings, FanInClosed, Rooted, IsCounterexample, Shows, RowsDistinct, RowNodes, HistoryOk, StructureOk, BadLiterals;
    var u := new Unroller(c);
    var loaded: seq<bool> := [];
    var f := Units({-1});
    ghost var fixed := {-1};
    StartSearch(c, u.nodes, u.gates, f);
    done, bads := 0, [];
    Unrolled(c, u.nodes, u.rows, bads, u.cons);
    while done < frames
      invariant 0 <= done <= frames && done == |u.rows| && u.c == c && fresh(u)
      invariant Searching(u, loaded, f, fixed) && u.outputs == bads && BadLiterals(c, bads)
      invariant |u.nodes| <= 2 + c.latches + done * (c.inputs + |c.ands|)
      invariant forall k :: 0 <= k < done ==> Abs(bads[k]) <= maxNodes
      invariant forall j :: 1 <= j <= done && Mine(threads, index, j) ==> !ShortestCex(c, j)
      invariant forall j :: 1 <= j <= done ==> !known(j) && !(Mine(threads, index, j) && interrupted(j))
    {
      var k := done + 1;
      if known(k) {
        return Stopped(AnswerKnown), done, bads;
      }
      r, loaded, f, fixed := SolveFrame(u, loaded, f, Mine(threads, index, k), interrupted(k), fixed);
      if r.Found? {
        assert CexOfLength(c, k);
        return;
      }
      if r.Stopped? {
        return;
      }
      OneMoreFrame(2 + c.latches, done, c.inputs + |c.ands|);
      done := k;
      var bad := u.outputs[|u.outputs| - 1];
      bads := u.outputs;
      Unrolled(c, u.nodes, u.rows, bads, u.cons);
      if Abs(bad) > maxNodes {
        return Stopped(TooLarge(bad)), done, bads;
      }
    }
    r := NotFound;
  }

  lemma StartSearch(c: Aig, nodes: seq<Node>, gates: seq<And>, f: set<Clause>)
    requires WellFormed(c) && NodesOk(nodes) && gates == [] && f == Units({-1})
    ensures FanInClosed(gates, []) && Holdings(f, gates, [], {-1}) && UnitsMean(c, nodes, [], {-1}, 0, 0)
    ensures forall l :: l in {-1} ==> Rooted(gates, [], Abs(l))
  {
    UnitsStart(c, nodes);
  }
}
