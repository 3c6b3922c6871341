/** The frame sequence of the IC3 engine as pure data: `fs[i]` is the set of cubes blocked in frame
    i, with frame 0 standing for the initial states.  What each step of the engine keeps. */
module Ic3 {
  import opened Cnf
  import opened Circuit
  import opened FrameSolver

  /** Every state of frame `i`. */
  ghost predicate In(c: Aig, fs: seq<set<Cube>>, i: int, e: set<int>)
    requires WellFormed(c) && 0 <= i < |fs|
  {
    InFrame(c, i == 0, fs[i], e)
  }

  /** No step out of frame `i` ends in `q`. */
  ghost predicate Excludes(c: Aig, fs: seq<set<Cube>>, i: int, q: Cube)
    requires WellFormed(c) && 0 <= i < |fs|
  {
    forall e, e' :: In(c, fs, i, e) && Step(c, e, e') ==> !AllHold(e', q)
  }

  /** Number of the deepest frame for which bad successors are looked for. */
  function Depth(fs: seq<set<Cube>>): int {
    |fs| - 2
  }

  ghost predicate BadFree(c: Aig, fs: seq<set<Cube>>, i: int)
    requires WellFormed(c) && 0 <= i < |fs|
  {
    NoBadSuccessor(c, i == 0, fs[i])
  }

  /** The invariant of every run: cubes miss the initial states, frames grow, each frame steps into
      the next, and no frame below the depth has a bad successor. */
  ghost predicate Sound(c: Aig, fs: seq<set<Cube>>)
    requires WellFormed(c)
  {
    && |fs| >= 2 && fs[0] == {}
    && (forall i, q :: 0 <= i < |fs| && q in fs[i] ==> IsCube(c, q) && !MeetsInit(c, q))
    && (forall i :: 1 <= i < |fs| - 1 ==> fs[i + 1] <= fs[i])
    && (forall i, q :: 0 <= i < |fs| - 1 && q in fs[i + 1] ==> Excludes(c, fs, i, q))
    && (forall i :: 0 <= i < Depth(fs) ==> BadFree(c, fs, i))
    && (forall e :: Init(c, e) ==> !Bad(c, e))
  }

  ghost predicate Stronger(fs: seq<set<Cube>>, gs: seq<set<Cube>>) {
    |gs| == |fs| && forall i :: 0 <= i < |fs| ==> fs[i] <= gs[i]
  }

  lemma StrongerIn(c: Aig, fs: seq<set<Cube>>, gs: seq<set<Cube>>, i: int, e: set<int>)
    requires WellFormed(c) && Stronger(fs, gs) && 0 <= i < |fs|
    ensures In(c, gs, i, e) ==> In(c, fs, i, e)
  {
  }

  lemma StrongerExcludes(c: Aig, fs: seq<set<Cube>>, gs: seq<set<Cube>>, i: int, q: Cube)
    requires WellFormed(c) && Stronger(fs, gs) && 0 <= i < |fs|
    ensures Excludes(c, fs, i, q) ==> Excludes(c, gs, i, q)
    ensures BadFree(c, fs, i) ==> BadFree(c, gs, i)
  {
    hide Step, Init, Bad, AllHold;
  }

  lemma StrongerBlocked(c: Aig, fs: seq<set<Cube>>, gs: seq<set<Cube>>, i: int, x: Cube, y: Cube)
    requires WellFormed(c) && Stronger(fs, gs) && 0 <= i < |fs|
    requires Blocked(c, i == 0, fs[i], x, y)
    ensures Blocked(c, i == 0, gs[i], x, y)
  {
    hide Step, Init, Bad, AllHold;
  }

  lemma {:induction false} NestedFrames(c: Aig, fs: seq<set<Cube>>, i: int, j: int)
    requires WellFormed(c) && Sound(c, fs) && 1 <= i <= j < |fs|
    ensures fs[j] <= fs[i]
    decreases j - i
  {
    hide Excludes, BadFree, MeetsInit, IsCube, Init, Bad;
    if i < j {
      NestedFrames(c, fs, i, j - 1);
      assert fs[j - 1 + 1] <= fs[j - 1];
    }
  }

  /** Frames only grow along the sequence, starting with the initial states. */
  lemma FramesGrow(c: Aig, fs: seq<set<Cube>>, i: int, j: int, e: set<int>)
    requires WellFormed(c) && Sound(c, fs) && 0 <= i <= j < |fs| && In(c, fs, i, e)
    ensures In(c, fs, j, e)
  {
    hide Excludes, BadFree, Step, Bad;
    if i == 0 {
      forall q | q in fs[j]
        ensures !AllHold(e, q)
      {
        assert !MeetsInit(c, q);
      }
    } else {
      NestedFrames(c, fs, i, j);
    }
  }

  /** Every step out of a frame lands in the next one. */
  lemma StepIntoNext(c: Aig, fs: seq<set<Cube>>, i: int, e: set<int>, e': set<int>)
    requires WellFormed(c) && Sound(c, fs) && 0 <= i < |fs| - 1
    requires In(c, fs, i, e) && Step(c, e, e')
    ensures In(c, fs, i + 1, e')
  {
    hide BadFree, MeetsInit, IsCube, Step;
    forall q | q in fs[i + 1]
      ensures !AllHold(e', q)
    {
      assert Excludes(c, fs, i, q);
    }
  }

  // ----- adding a lemma -----

  function AddUpTo(fs: seq<set<Cube>>, q: Cube, k: int): (gs: seq<set<Cube>>)
    requires 1 <= k < |fs|
    ensures |gs| == |fs| && gs[0] == fs[0]
    ensures forall i :: 1 <= i <= k ==> gs[i] == fs[i] + {q}
    ensures forall i :: k < i < |fs| ==> gs[i] == fs[i]
    ensures Stronger(fs, gs)
  {
    seq(|fs|, i requires 0 <= i < |fs| => if 1 <= i <= k then fs[i] + {q} else fs[i])
  }

  lemma NewCubeExcluded(c: Aig, fs: seq<set<Cube>>, q: Cube, k: int, i: int)
    requires WellFormed(c) && Sound(c, fs) && 1 <= k < |fs| && 0 <= i < k
    requires IsCube(c, q) && !MeetsInit(c, q) && Blocked(c, k == 1, fs[k - 1], q, q)
    ensures Excludes(c, AddUpTo(fs, q, k), i, q)
  {
    hide Step, Bad, Sound, Init;
    var gs := AddUpTo(fs, q, k);
    forall e, e' | In(c, gs, i, e) && Step(c, e, e')
      ensures !AllHold(e', q)
    {
      StrongerIn(c, fs, gs, i, e);
      FramesGrow(c, fs, i, k - 1, e);
      assert !AllHold(e, q);
    }
  }

  /** A cube that misses the initial states and is inductive relative to frame k-1 may be blocked
      in frames 1..k. */
  lemma AddCubeSound(c: Aig, fs: seq<set<Cube>>, q: Cube, k: int)
    requires WellFormed(c) && Sound(c, fs) && 1 <= k < |fs|
    requires IsCube(c, q) && !MeetsInit(c, q) && Blocked(c, k == 1, fs[k - 1], q, q)
    ensures Sound(c, AddUpTo(fs, q, k))
  {
    hide Excludes, BadFree, MeetsInit, IsCube, Blocked, Init, Bad;
    var gs := AddUpTo(fs, q, k);
    forall i, r | 0 <= i < |gs| - 1 && r in gs[i + 1]
      ensures Excludes(c, gs, i, r)
    {
      if r in fs[i + 1] {
        StrongerExcludes(c, fs, gs, i, r);
      } else {
        NewCubeExcluded(c, fs, q, k, i);
      }
    }
    forall i | 0 <= i < Depth(gs)
      ensures BadFree(c, gs, i)
    {
      StrongerExcludes(c, fs, gs, i, {});
    }
    forall i | 1 <= i < |gs| - 1
      ensures gs[i + 1] <= gs[i]
    {
      assert fs[i + 1] <= fs[i];
    }
  }

  // ----- opening a frame -----

  /** Once the deepest frame has no bad successor a fresh unconstrained frame may be opened. */
  lemma NewFrameSound(c: Aig, fs: seq<set<Cube>>)
    requires WellFormed(c) && Sound(c, fs) && BadFree(c, fs, Depth(fs))
    ensures Sound(c, fs + [{}])
  {
    hide BadFree, MeetsInit, IsCube, Init, Bad, Step, AllHold;
    var gs := fs + [{}];
    forall i, q | 0 <= i < |gs| - 1 && q in gs[i + 1]
      ensures Excludes(c, gs, i, q)
    {
      assert i + 1 < |fs|;
      assert Excludes(c, fs, i, q);
    }
    forall i | 0 <= i < Depth(gs)
      ensures BadFree(c, gs, i)
    {
      BadFreePrefix(c, fs, {}, i);
    }
  }

  lemma BadFreePrefix(c: Aig, fs: seq<set<Cube>>, f: set<Cube>, i: int)
    requires WellFormed(c) && 0 <= i < |fs|
    ensures BadFree(c, fs + [f], i) <==> BadFree(c, fs, i)
  {
    assert (fs + [f])[i] == fs[i];
  }

  // ----- proof obligations -----

  /** No step out of frame `i` hits the target. */
  ghost predicate Misses(c: Aig, fs: seq<set<Cube>>, i: int, g: Target)
    requires WellFormed(c) && 0 <= i < |fs|
  {
    forall e, e' :: In(c, fs, i, e) && Step(c, e, e') ==> !Hits(c, g, e')
  }

  /** The same latches with the given inputs. */
  ghost function WithInputs(c: Aig, e: set<int>, ins: set<int>): (x: set<int>)
    ensures SameInputs(c, x, ins)
    ensures forall v :: IsLatch(c, v) ==> (v in x <==> v in e)
  {
    (e - InputVars(c)) + (ins * InputVars(c))
  }

  lemma WithInputsLatches(c: Aig, e: set<int>, ins: set<int>, q: Cube, lemmas: set<Cube>)
    requires WellFormed(c) && IsCube(c, q) && (forall r :: r in lemmas ==> IsCube(c, r))
    ensures AllHold(WithInputs(c, e, ins), q) == AllHold(e, q)
    ensures Avoids(WithInputs(c, e, ins), lemmas) == Avoids(e, lemmas)
    ensures AllHold(WithInputs(c, e, ins), c.reset) == AllHold(e, c.reset)
    ensures forall d :: Follows(c, d, WithInputs(c, e, ins)) <==> Follows(c, d, e)
  {
    hide WithInputs, Value, Avoids;
    var x := WithInputs(c, e, ins);
    forall r | IsCube(c, r)
      ensures AllHold(x, r) == AllHold(e, r)
    {
      assert forall l :: l in r ==> Holds(x, l) == Holds(e, l);
    }
    AvoidsByCubes(c, x, e, lemmas);
    assert IsCube(c, c.reset);
    forall k | 0 <= k < c.latches
      ensures LatchVar(c, k) in x <==> LatchVar(c, k) in e
    {
      assert IsLatch(c, LatchVar(c, k));
    }
  }

  lemma AvoidsByCubes(c: Aig, x: set<int>, e: set<int>, lemmas: set<Cube>)
    requires forall r :: r in lemmas ==> AllHold(x, r) == AllHold(e, r)
    ensures Avoids(x, lemmas) == Avoids(e, lemmas)
  {
  }

  /** A state of a legal cube, given the recorded inputs, is bad or steps into the target. */
  lemma LiftedStep(c: Aig, q: Cube, ins: set<int>, ins': set<int>, g: Target, e: set<int>) returns (x: set<int>, y: set<int>)
    requires WellFormed(c) && IsCube(c, q) && Legal(c, q, ins, ins', g) && AllHold(e, q)
    ensures x == WithInputs(c, e, ins) && Constrained(c, x) && y == WithInputs(c, NextLatches(c, x), ins')
    ensures Bad(c, x) || (Step(c, x, y) && Hits(c, g, y))
  {
    hide WithInputs, NextLatches, Value, Hits;
    x := WithInputs(c, e, ins);
    y := WithInputs(c, NextLatches(c, x), ins');
    WithInputsLatches(c, e, ins, q, {});
    WithInputsLatches(c, NextLatches(c, x), ins', {}, {});
    assert Follows(c, x, NextLatches(c, x));
    assert Follows(c, x, y);
  }

  /** A legal predecessor misses the initial states. */
  lemma LiftedMissesInit(c: Aig, fs: seq<set<Cube>>, i: int, q: Cube, ins: set<int>, ins': set<int>, g: Target)
    requires WellFormed(c) && Sound(c, fs) && 0 <= i < |fs|
    requires IsCube(c, q) && Legal(c, q, ins, ins', g) && Misses(c, fs, i, g)
    ensures !MeetsInit(c, q)
  {
    hide WithInputs, NextLatches, Legal, Hits, Follows, Constrained, Bad, Excludes, BadFree;
    forall e | Init(c, e)
      ensures !AllHold(e, q)
    {
      if AllHold(e, q) {
        var x, y := LiftedStep(c, q, ins, ins', g, e);
        WithInputsLatches(c, e, ins, q, {});
        assert Init(c, x);
        FramesGrow(c, fs, 0, i, x);
      }
    }
  }

  /** A legal predecessor of something frame i misses is itself out of reach of frame i-1. */
  lemma LiftedExcluded(c: Aig, fs: seq<set<Cube>>, i: int, q: Cube, ins: set<int>, ins': set<int>, g: Target)
    requires WellFormed(c) && Sound(c, fs) && 1 <= i <= Depth(fs)
    requires IsCube(c, q) && Legal(c, q, ins, ins', g) && Misses(c, fs, i, g)
    ensures Excludes(c, fs, i - 1, q)
  {
    hide WithInputs, NextLatches, Legal, Hits, Follows, Constrained, Bad, Excludes, In, Init;
    forall e, e' | In(c, fs, i - 1, e) && Step(c, e, e')
      ensures !AllHold(e', q)
    {
      if AllHold(e', q) {
        var x, y := LiftedStep(c, q, ins, ins', g, e');
        WithInputsLatches(c, e', ins, q, {});
        assert Step(c, e, x);
        BadFreeStep(c, fs, i - 1, e, x);
        StepIntoNext(c, fs, i - 1, e, x);
      }
    }
    ExcludesIntro(c, fs, i - 1, q);
  }

  lemma ExcludesIntro(c: Aig, fs: seq<set<Cube>>, i: int, q: Cube)
    requires WellFormed(c) && 0 <= i < |fs|
    requires forall e, e' :: In(c, fs, i, e) && Step(c, e, e') ==> !AllHold(e', q)
    ensures Excludes(c, fs, i, q)
  {
  }

  lemma BadFreeStep(c: Aig, fs: seq<set<Cube>>, i: int, e: set<int>, x: set<int>)
    requires WellFormed(c) && Sound(c, fs) && 0 <= i < Depth(fs) && In(c, fs, i, e) && Step(c, e, x)
    ensures !Bad(c, x)
  {
    hide Step, InFrame, Bad, Excludes, MeetsInit, IsCube, Init;
    assert BadFree(c, fs, i);
  }

  // ----- when lifted cubes are legal -----

  /** State `x` has the given inputs and agrees with `m` and `e` wherever their latches agree. */
  ghost predicate Between(c: Aig, m: set<int>, e: set<int>, x: set<int>) {
    SameInputs(c, x, m) && forall v :: IsLatch(c, v) && (v in m <==> v in e) ==> (v in x <==> v in m)
  }

  /** A state between the two that is not bad but violates a constraint before or after its step. */
  ghost predicate Breaks(c: Aig, m: set<int>, m': set<int>, e: set<int>, x: set<int>, x': set<int>)
    requires WellFormed(c)
  {
    Between(c, m, e, x) && SameInputs(c, x', m') && Follows(c, x, x') && !Bad(c, x) && !(Constrained(c, x) && Constrained(c, x'))
  }

  /** Between the source of a step and a bad state that has the same inputs but violates the
      constraints there is always such a state, so no lifted cube can contain both. */
  ghost predicate Shielded(c: Aig)
    requires WellFormed(c)
  {
    forall m, m', e :: Step(c, m, m') && SameInputs(c, e, m) && Bad(c, e) && !Constrained(c, e) ==>
      exists x, x' :: Breaks(c, m, m', e, x, x')
  }

  lemma BetweenHolds(c: Aig, q: Cube, m: set<int>, e: set<int>, x: set<int>)
    requires IsCube(c, q) && AllHold(m, q) && AllHold(e, q) && Between(c, m, e, x)
    ensures AllHold(x, q) && SameInputs(c, x, m)
  {
    forall l | l in q
      ensures Holds(x, l)
    {
      assert Holds(m, l) && Holds(e, l) && IsLatch(c, Abs(l));
    }
  }

  lemma ReturnedIsLegal(c: Aig, q: Cube, m: set<int>, m': set<int>, g: Target)
    requires WellFormed(c) && Shielded(c) && Returned(c, q, m, m', g)
    ensures Legal(c, q, m, m', g)
  {
    hide Follows, Constrained, Bad, Hits, AllHold, IsCube, Between;
    forall e, e' | AllHold(e, q) && SameInputs(c, e, m) && SameInputs(c, e', m') && Follows(c, e, e')
      ensures Constrained(c, e) && (Bad(c, e) || (Step(c, e, e') && Hits(c, g, e')))
    {
      if Bad(c, e) && !Constrained(c, e) {
        var x, x' :| Breaks(c, m, m', e, x, x');
        BetweenHolds(c, q, m, e, x);
      }
    }
  }

  ghost predicate LiftingIsLegal(c: Aig)
    requires WellFormed(c)
  {
    forall q, m, m', g :: Returned(c, q, m, m', g) ==> Legal(c, q, m, m', g)
  }

  /** The latch literals on which two states agree. */
  function Common(c: Aig, m: set<int>, e: set<int>): Cube {
    set l | l in StateLits(LatchVars(c), m) && Holds(e, l)
  }

  lemma CommonMeaning(c: Aig, m: set<int>, e: set<int>, x: set<int>)
    ensures IsCube(c, Common(c, m, e)) && AllHold(m, Common(c, m, e)) && AllHold(e, Common(c, m, e))
    ensures AllHold(x, Common(c, m, e)) && SameInputs(c, x, m) ==> Between(c, m, e, x)
  {
    LitsHold(LatchVars(c), m, m);
    if AllHold(x, Common(c, m, e)) && SameInputs(c, x, m) {
      forall v | IsLatch(c, v) && (v in m <==> v in e)
        ensures v in x <==> v in m
      {
        assert v in LatchVars(c);
        var l := if v in m then v else -v;
        assert l in StateLits(LatchVars(c), m);
        assert l in Common(c, m, e);
      }
    }
  }

  /** Every cube that lifting can return is legal exactly in shielded circuits. */
  lemma LiftingIsLegalIff(c: Aig)
    requires WellFormed(c)
    ensures LiftingIsLegal(c) <==> Shielded(c)
  {
    hide Follows, Constrained, Bad, IsCube, Between, Common, Legal, Lifted, SameInputs;
    if LiftingIsLegal(c) {
      forall m, m', e | Step(c, m, m') && SameInputs(c, e, m) && Bad(c, e) && !Constrained(c, e)
        ensures exists x, x' :: Breaks(c, m, m', e, x, x')
      {
        LegalBreaks(c, m, m', e);
      }
    }
    if Shielded(c) {
      forall q, m, m', g | Returned(c, q, m, m', g)
        ensures Legal(c, q, m, m', g)
      {
        ReturnedIsLegal(c, q, m, m', g);
      }
    }
  }

  lemma LegalBreaks(c: Aig, m: set<int>, m': set<int>, e: set<int>)
    requires WellFormed(c) && LiftingIsLegal(c) && Step(c, m, m') && SameInputs(c, e, m) && Bad(c, e) && !Constrained(c, e)
    ensures exists x, x' :: Breaks(c, m, m', e, x, x')
  {
    hide Constrained, Bad, Between, Common, SameInputs, WithInputs, NextLatches;
    var q, g := Common(c, m, e), ToCube({});
    CommonMeaning(c, m, e, e);
    var y := WithInputs(c, NextLatches(c, e), m');
    WithInputsLatches(c, NextLatches(c, e), m', {}, {});
    assert Follows(c, e, NextLatches(c, e));
    assert Follows(c, e, y);
    if !exists x, x' :: Breaks(c, m, m', e, x, x') {
      CommonReturned(c, m, m', e);
    }
  }

  /** Without such a state the cube of common literals can be returned for the trivial target. */
  lemma CommonReturned(c: Aig, m: set<int>, m': set<int>, e: set<int>)
    requires WellFormed(c) && Step(c, m, m') && !exists x, x' :: Breaks(c, m, m', e, x, x')
    ensures Returned(c, Common(c, m, e), m, m', ToCube({}))
  {
    hide Constrained, Bad, Between, Common, SameInputs, Follows;
    var q, g := Common(c, m, e), ToCube({});
    CommonMeaning(c, m, e, e);
    forall x, x' | AllHold(x, q) && SameInputs(c, x, m) && SameInputs(c, x', m') && Follows(c, x, x')
      ensures Bad(c, x) || (Constrained(c, x) && Constrained(c, x') && Hits(c, g, x'))
    {
      CommonMeaning(c, m, e, x);
      assert !Breaks(c, m, m', e, x, x');
    }
  }

  /** Bad implies the constraints: in particular when there are none. */
  lemma BadMeetsConstraints(c: Aig)
    requires WellFormed(c) && (c.constraints == [] || forall e :: Bad(c, e) ==> Constrained(c, e))
    ensures Shielded(c)
  {
  }

  /** Constraints that read only inputs are harmless, whatever bad is. */
  lemma InputConstraints(c: Aig)
    requires WellFormed(c) && forall m, e :: SameInputs(c, m, e) && Constrained(c, m) ==> Constrained(c, e)
    ensures Shielded(c)
  {
    hide Constrained, Bad, Follows;
    forall m, m', e | Step(c, m, m') && SameInputs(c, e, m)
      ensures Constrained(c, e)
    {
      assert SameInputs(c, m, e);
    }
  }

  /** It is enough that bad implies the constraints under the inputs of each step. */
  lemma BadUnderStepInputs(c: Aig)
    requires WellFormed(c) && forall m, m', e :: Step(c, m, m') && SameInputs(c, e, m) && Bad(c, e) ==> Constrained(c, e)
    ensures Shielded(c)
  {
    hide Constrained, Bad, Follows, SameInputs;
  }

  // ----- verdict "safe" -----

  /** Blocked cubes of frame i are subsumed by those kept in lists i, i+1, ... */
  ghost predicate Kept(lists: seq<set<Cube>>, i: int, q: Cube) {
    exists j, r :: 0 <= i <= j < |lists| && r in lists[j] && r <= q
  }

  ghost predicate ListsOk(fs: seq<set<Cube>>, lists: seq<set<Cube>>) {
    && |lists| == |fs|
    && (forall i :: 0 <= i < |fs| ==> lists[i] <= fs[i])
    && (forall i, q :: 1 <= i < |fs| && q in fs[i] ==> Kept(lists, i, q))
  }

  function UnionFrom(lists: seq<set<Cube>>, i: int): (u: set<Cube>)
    requires 0 <= i <= |lists|
    ensures forall q :: q in u <==> exists j :: i <= j < |lists| && q in lists[j]
    decreases |lists| - i
  {
    if i == |lists| then {} else lists[i] + UnionFrom(lists, i + 1)
  }

  lemma KeptAvoids(fs: seq<set<Cube>>, lists: seq<set<Cube>>, i: int, e: set<int>)
    requires ListsOk(fs, lists) && 1 <= i < |fs| && Avoids(e, UnionFrom(lists, i))
    ensures Avoids(e, fs[i])
  {
    forall q | q in fs[i]
      ensures !AllHold(e, q)
    {
      assert Kept(lists, i, q);
      var j, r :| 0 <= i <= j < |lists| && r in lists[j] && r <= q;
      assert r in UnionFrom(lists, i);
    }
  }

  /** When the list of frame i is empty, frames i and i+1 coincide: the cubes of the later lists
      are an inductive invariant that excludes bad. */
  lemma EmptyFrameInvariant(c: Aig, fs: seq<set<Cube>>, lists: seq<set<Cube>>, i: int)
    requires WellFormed(c) && Sound(c, fs) && ListsOk(fs, lists)
    requires 1 <= i <= Depth(fs) && BadFree(c, fs, i) && lists[i] == {}
    ensures Invariant(c, UnionFrom(lists, i + 1))
  {
    hide Step, Bad, Init, AllHold, IsCube, MeetsInit, Kept, Excludes, UnionFrom;
    var u := UnionFrom(lists, i + 1);
    assert UnionFrom(lists, i) == u by {
      UnionFromStep(lists, i);
    }
    forall e | Avoids(e, u)
      ensures In(c, fs, i, e)
    {
      KeptAvoids(fs, lists, i, e);
    }
    forall e | In(c, fs, i + 1, e)
      ensures Avoids(e, u)
    {
      UnionAvoids(c, fs, lists, i + 1, e);
    }
    forall e | Init(c, e)
      ensures Avoids(e, u)
    {
      assert In(c, fs, 0, e) by {
        assert fs[0] == {};
      }
      FramesGrow(c, fs, 0, i + 1, e);
    }
    forall e, e' | Avoids(e, u) && Step(c, e, e')
      ensures Avoids(e', u) && !Bad(c, e')
    {
      StepIntoNext(c, fs, i, e, e');
      assert BadFree(c, fs, i);
      assert NoBadSuccessor(c, i == 0, fs[i]);
    }
  }

  lemma UnionFromStep(lists: seq<set<Cube>>, i: int)
    requires 0 <= i < |lists| && lists[i] == {}
    ensures UnionFrom(lists, i) == UnionFrom(lists, i + 1)
  {
  }

  lemma UnionAvoids(c: Aig, fs: seq<set<Cube>>, lists: seq<set<Cube>>, i: int, e: set<int>)
    requires WellFormed(c) && Sound(c, fs) && ListsOk(fs, lists) && 1 <= i < |fs| && In(c, fs, i, e)
    ensures Avoids(e, UnionFrom(lists, i))
  {
    hide Step, Bad, AllHold, IsCube, MeetsInit, Kept, Excludes, BadFree, Init;
    forall q | q in UnionFrom(lists, i)
      ensures q in fs[i]
    {
      var j :| i <= j < |lists| && q in lists[j];
      NestedFrames(c, fs, i, j);
    }
  }
}
