/** States recorded during the search for a counterexample and the replay of their inputs. */
module Witness {
  import opened Cnf
  import opened Circuit
  import opened StepEncoding
  import opened Encoding
  import opened FrameSolver
  import opened Ic3

  /** A predecessor: a cube of latches, the inputs that lead on, and the state led to. */
  class State {
    const latches: Cube
    const inputs: set<int>
    const next: State?
    var failed: nat
    var failedDepth: nat

    constructor (latches: Cube, inputs: set<int>, next: State?)
      ensures this.latches == latches && this.inputs == inputs && this.next == next
      ensures failed == 0 && failedDepth == 0
    {
      this.latches := latches;
      this.inputs := inputs;
      this.next := next;
      failed, failedDepth := 0, 0;
    }
  }

  /** `s` heads a chain of `d` legal cubes, each leading into the next, the last one to bad. */
  ghost predicate Chain(c: Aig, s: State, d: nat)
    requires WellFormed(c)
    decreases d
  {
    && d > 0 && s.next != null && IsCube(c, s.latches)
    && (d == 1 ==> s.next.next == null && Legal(c, s.latches, s.inputs, s.next.inputs, ToBad))
    && (d > 1 ==> Chain(c, s.next, d - 1)
                  && exists ins :: Legal(c, s.latches, s.inputs, ins, ToCube(s.next.latches)))
  }

  /** A state heads chains of one length only. */
  lemma {:induction false} ChainLength(c: Aig, s: State, d: nat, e: nat)
    requires WellFormed(c) && Chain(c, s, d) && Chain(c, s, e)
    ensures d == e
    decreases d
  {
    hide Legal, IsCube;
    if d > 1 && e > 1 {
      ChainLength(c, s.next, d - 1, e - 1);
    }
  }

  /** Inputs recorded after `s` along the chain. */
  function Inputs(s: State, d: nat): (r: seq<set<int>>)
  {
    if d == 0 || s.next == null then [] else [s.next.inputs] + Inputs(s.next, d - 1)
  }

  /** Running the circuit from `e` under the given later inputs. */
  ghost function Replay(c: Aig, e: set<int>, ins: seq<set<int>>): (tr: seq<set<int>>)
    requires WellFormed(c)
    ensures |tr| == |ins| + 1 && tr[0] == e
    decreases |ins|
  {
    if ins == [] then [e] else [e] + Replay(c, After(c, e, ins[0]), ins[1..])
  }

  ghost function After(c: Aig, e: set<int>, ins: set<int>): (x: set<int>)
    requires WellFormed(c)
    ensures Follows(c, e, x) && SameInputs(c, x, ins)
  {
    WithInputsLatches(c, NextLatches(c, e), ins, {}, {});
    assert Follows(c, e, NextLatches(c, e));
    WithInputs(c, NextLatches(c, e), ins)
  }

  /** Some prefix of the run ends in a bad state with all constraints met so far. */
  ghost predicate ReachesBad(c: Aig, tr: seq<set<int>>)
    requires WellFormed(c)
  {
    exists n :: 0 <= n < |tr| && BadAt(c, tr, n)
  }

  ghost predicate BadAt(c: Aig, tr: seq<set<int>>, n: int)
    requires WellFormed(c) && 0 <= n < |tr|
  {
    && Bad(c, tr[n])
    && (forall j :: 0 <= j <= n ==> Constrained(c, tr[j]))
    && (forall j :: 0 <= j < n ==> Follows(c, tr[j], tr[j + 1]))
  }

  lemma ReachesBadCons(c: Aig, e: set<int>, tr: seq<set<int>>)
    requires WellFormed(c) && Constrained(c, e) && |tr| > 0 && Follows(c, e, tr[0]) && ReachesBad(c, tr)
    ensures ReachesBad(c, [e] + tr)
  {
    hide Follows, Constrained, Bad;
    var n :| 0 <= n < |tr| && BadAt(c, tr, n);
    var ur := [e] + tr;
    forall j | 0 <= j <= n + 1
      ensures Constrained(c, ur[j])
    {
      assert j > 0 ==> ur[j] == tr[j - 1];
    }
    forall j | 0 <= j < n + 1
      ensures Follows(c, ur[j], ur[j + 1])
    {
      if j > 0 {
        assert Follows(c, tr[j - 1], tr[j - 1 + 1]);
      }
    }
    assert BadAt(c, ur, n + 1);
  }

  lemma ReachesBadNow(c: Aig, tr: seq<set<int>>)
    requires WellFormed(c) && |tr| > 0 && Bad(c, tr[0]) && Constrained(c, tr[0])
    ensures ReachesBad(c, tr)
  {
    assert BadAt(c, tr, 0);
  }

  lemma LatchesDecideCube(c: Aig, e: set<int>, x: set<int>, y: set<int>, q: Cube)
    requires WellFormed(c) && IsCube(c, q) && Follows(c, e, x) && Follows(c, e, y)
    ensures AllHold(x, q) == AllHold(y, q)
  {
    forall l | l in q
      ensures Holds(x, l) == Holds(y, l)
    {
      var k := Abs(l) - c.inputs - 2;
      assert LatchVar(c, k) == Abs(l);
    }
  }

  /** Replaying the recorded inputs from any state of the first cube reaches bad. */
  lemma {:induction false} ChainReachesBad(c: Aig, s: State, d: nat, e: set<int>)
    requires WellFormed(c) && Chain(c, s, d)
    requires AllHold(e, s.latches) && SameInputs(c, e, s.inputs)
    ensures ReachesBad(c, Replay(c, e, Inputs(s, d)))
    decreases d
  {
    hide Follows, Constrained, Bad, SameInputs, AllHold, After, IsCube;
    var tr := Replay(c, e, Inputs(s, d));
    var x := After(c, e, s.next.inputs);
    ChainStep(c, s, d, e, x);
    if Bad(c, e) {
      ReachesBadNow(c, tr);
    } else {
      assert tr == [e] + Replay(c, x, Inputs(s.next, d - 1)) by {
        assert Inputs(s, d)[1..] == Inputs(s.next, d - 1);
      }
      if d == 1 {
        ReachesBadNow(c, Replay(c, x, Inputs(s.next, 0)));
      } else {
        ChainReachesBad(c, s.next, d - 1, x);
      }
      ReachesBadCons(c, e, Replay(c, x, Inputs(s.next, d - 1)));
    }
  }

  /** One step along a chain, under the inputs recorded for the next cube. */
  lemma ChainStep(c: Aig, s: State, d: nat, e: set<int>, x: set<int>)
    requires WellFormed(c) && Chain(c, s, d) && AllHold(e, s.latches) && SameInputs(c, e, s.inputs)
    requires Follows(c, e, x) && SameInputs(c, x, s.next.inputs)
    ensures Constrained(c, e)
    ensures !Bad(c, e) && d == 1 ==> Bad(c, x) && Constrained(c, x)
    ensures !Bad(c, e) && d > 1 ==> AllHold(x, s.next.latches)
  {
    hide Follows, Constrained, Bad, SameInputs, AllHold, After, IsCube;
    if d > 1 {
      var ins :| Legal(c, s.latches, s.inputs, ins, ToCube(s.next.latches));
      var y := After(c, e, ins);
      if !Bad(c, e) {
        LatchesDecideCube(c, e, x, y, s.next.latches);
      }
    }
  }

  /** What a reported witness promises: the run it describes has a counterexample as prefix. */
  ghost predicate IsWitness(c: Aig, e: set<int>, ins: seq<set<int>>)
    requires WellFormed(c)
  {
    exists n :: 0 < n <= |ins| + 1 && IsCounterexample(c, Replay(c, e, ins)[..n])
  }

  lemma ReachesBadIsWitness(c: Aig, e: set<int>, ins: seq<set<int>>)
    requires WellFormed(c) && AllHold(e, c.reset) && ReachesBad(c, Replay(c, e, ins))
    ensures IsWitness(c, e, ins)
  {
    hide Follows, Constrained, Bad, AllHold, Replay;
    var tr := Replay(c, e, ins);
    var n :| 0 <= n < |tr| && BadAt(c, tr, n);
    assert IsCounterexample(c, tr[..n + 1]);
  }

  /** A step from an initial state into the head of a chain makes a witness. */
  lemma ChainWitness(c: Aig, m: set<int>, m': set<int>, s: State, d: nat)
    requires WellFormed(c) && Chain(c, s, d)
    requires Init(c, m) && Step(c, m, m') && AllHold(m', s.latches)
    ensures IsWitness(c, m, [s.inputs] + Inputs(s, d))
  {
    hide Follows, Constrained, Bad, SameInputs, AllHold, After, IsCube, Legal;
    var ins := [s.inputs] + Inputs(s, d);
    var x := After(c, m, s.inputs);
    LatchesDecideCube(c, m, m', x, s.latches);
    ChainReachesBad(c, s, d, x);
    assert ins[1..] == Inputs(s, d);
    assert Replay(c, m, ins) == [m] + Replay(c, x, Inputs(s, d));
    ReachesBadCons(c, m, Replay(c, x, Inputs(s, d)));
    ReachesBadIsWitness(c, m, ins);
  }
}
