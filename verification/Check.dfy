/** The main procedure of the PDR checker: initial checks, the loop over frames, the verdicts. */
module Check {
  import opened Cnf
  import opened Circuit
  import opened Encoding
  import opened StepEncoding
  import opened Activation
  import opened FrameSolver
  import opened Ic3
  import opened Witness
  import opened Obligations
  import opened Pdr
  import opened Certificate

  datatype Verdict =
    | Unsafe(start: set<int>, inputs: seq<set<int>>)
    | SafeVerdict(certificate: Aig)
    | Undecided

  /** Loads the circuit: all encodings, with primes allocated once. */
  method Encode(c: Aig) returns (k: Codes)
    requires WellFormed(c)
    ensures CodesOk(c, k)
  {
    hide EncodesInit;
    var enc := new Encoder(c);
    var init := EncodeInit(c);
    var base := enc.EncodeStep(true);
    var lim, bad, cons := enc.size - 1, enc.badPrime, enc.consPrimes;
    assert EncodesStep(c, base, lim, bad, cons, true);
    ghost var primes := enc.primes;
    hide EncodesStep;
    var lift := enc.EncodeStep(false);
    k := Codes(base, lim, lift, enc.size - 1, init, bad, cons);
  }

  /** Is some initial state bad? */
  method CheckInitialBad(c: Aig, k: Codes) returns (found: bool, m: set<int>)
    requires WellFormed(c) && CodesOk(c, k)
    ensures found ==> IsWitness(c, m, [])
    ensures !found ==> forall e :: Init(c, e) ==> !Bad(c, e)
  {
    hide EncodesStep, Models, Init, Consistent, Replay, Holds;
    var cone := EncodeCone(c, {Abs(c.bad)});
    var b := {c.bad};
    var a := Solve(k.init + cone, b, MaxVar(c));
    match a
    case Sat(w) =>
      ModelsUnion(w, k.init, cone);
      assert c.bad in b && Abs(c.bad) in {Abs(c.bad)};
      BadHolds(c, w);
      InitialWitness(c, w);
      found, m := true, w;
    case Unsat(core) =>
      found, m := false, {};
      forall e | Init(c, e)
        ensures !Bad(c, e)
      {
        var w := Completion(c, e);
        SemanticsSame(c, e, w);
        ModelsUnion(w, k.init, cone);
        ConsistentHolds(c, w, c.bad);
      }
  }

  lemma BadHolds(c: Aig, w: set<int>)
    requires WellFormed(c) && (Abs(c.bad) in w <==> Eval(c, w, Abs(c.bad)))
    ensures Holds(w, c.bad) <==> Bad(c, w)
  {
  }

  lemma InitialWitness(c: Aig, m: set<int>)
    requires WellFormed(c) && Init(c, m) && Bad(c, m)
    ensures IsWitness(c, m, [])
  {
    ReachesBadNow(c, [m]);
    ReachesBadIsWitness(c, m, []);
  }

  lemma FirstStepWitness(c: Aig, m: set<int>, m': set<int>)
    requires WellFormed(c) && Init(c, m) && Step(c, m, m') && Bad(c, m')
    ensures IsWitness(c, m, [m'])
  {
    var x := After(c, m, m');
    assert SameLeaves(c, x, m') by {
      forall v | 2 <= v <= Leaves(c)
        ensures v in x <==> v in m'
      {
        if !IsInput(c, v) {
          assert LatchVar(c, v - c.inputs - 2) == v;
        }
      }
    }
    SemanticsSame(c, x, m');
    assert [m'][1..] == [];
    assert Replay(c, m, [m']) == [m] + Replay(c, x, []);
    ReachesBadNow(c, [x]);
    ReachesBadCons(c, m, [x]);
    ReachesBadIsWitness(c, m, [m']);
  }

  // ----- frames that were passed -----

  /** A propagation that found no empty list: the frames before and after it, the lists it left, where it
      started, whether bad successors had been found at this depth, and the lowest frame strengthened. */
  datatype Pass = Pass(before: seq<set<Cube>>, after: seq<set<Cube>>, lists: seq<set<Cube>>, start: int, roots: nat, lowest: int)

  /** Propagation at depth `d` started where it should, and each list from there on kept a cube, none of them
      inductive relative to its frame. */
  ghost predicate Passed(c: Aig, p: Pass, d: int)
    requires WellFormed(c)
  {
    && |p.before| == |p.after| == |p.lists| == d + 2 && Sound(c, p.before) && Sound(c, p.after) && Stronger(p.before, p.after)
    && BadFree(c, p.before, d) && ListsOk(p.after, p.lists) && 1 <= p.lowest <= d
    && p.start == (if p.roots == 0 then d else if d % 5 != 0 && d > 20 then p.lowest else 1)
    && forall j :: p.start <= j <= d ==> StaysNonEmpty(c, p.before, p.lists, j)
  }

  ghost predicate AllPassed(c: Aig, ps: seq<Pass>)
    requires WellFormed(c)
  {
    forall k :: 0 <= k < |ps| ==> Passed(c, ps[k], k + 1)
  }

  lemma PassedMore(c: Aig, ps: seq<Pass>, p: Pass)
    requires WellFormed(c) && AllPassed(c, ps) && Passed(c, p, |ps| + 1)
    ensures AllPassed(c, ps + [p])
  {
    hide Passed;
    var qs := ps + [p];
    forall k | 0 <= k < |qs|
      ensures Passed(c, qs[k], k + 1)
    {
      assert k < |ps| ==> qs[k] == ps[k];
    }
  }

  lemma NonePassed(c: Aig)
    requires WellFormed(c)
    ensures AllPassed(c, [])
  {
  }

  /** A cube that was kept shows a state of the next frame that is not in this one. */
  lemma KeptGrows(c: Aig, p: Pass, d: int, j: int)
    requires WellFormed(c) && Passed(c, p, d) && p.start <= j <= d && 1 <= j && Left(c, p.after[j]) == Left(c, p.before[j])
    ensures |Left(c, p.before[j])| < |Left(c, p.before[j + 1])|
  {
    assert StaysNonEmpty(c, p.before, p.lists, j);
    var q :| q in p.lists[j];
    assert !Blocked(c, false, p.before[j], q, q) && q in p.after[j];
    var e, e' :| InFrame(c, false, p.before[j], e) && Step(c, e, e') && !AllHold(e, q) && AllHold(e', q);
    assert In(c, p.before, j, e);
    StepIntoNext(c, p.before, j, e, e');
    assert Avoids(e', p.before[j + 1]) && !Avoids(e', p.after[j]);
    assert p.before[j + 1] <= p.before[j];
    SoundCubes(c, p.before);
    SoundCubes(c, p.after);
    hide Sound, Avoids, AllHold, Step, IsCube, MeetsInit, Passed, Blocked, Valuations;
    AvoidsByLatches(c, e', p.before[j + 1]);
    AvoidsByLatches(c, e', p.after[j]);
    LeftShrinks(c, p.before[j + 1], p.before[j]);
    var x := e' * LatchVars(c);
    assert x in Left(c, p.before[j + 1]) && x !in Left(c, p.after[j]);
  }

  lemma {:induction false} LeftGrows(c: Aig, p: Pass, d: int, j: int)
    requires WellFormed(c) && Passed(c, p, d) && p.start <= j <= d + 1 && 1 <= p.start
    requires forall i :: 0 <= i < |p.before| ==> Left(c, p.after[i]) == Left(c, p.before[i])
    ensures |Left(c, p.before[j])| >= j - p.start
    decreases j
  {
    assert |p.before| == d + 2 == |p.after|;
    if j > p.start {
      LeftGrows(c, p, d, j - 1);
      KeptGrows(c, p, d, j - 1);
    }
  }

  /** A propagation from the bottom that fails without blocking any further state happens only at depths up
      to the number of valuations of the latches. */
  lemma QuietPassBounded(c: Aig, p: Pass, d: int)
    requires WellFormed(c) && Passed(c, p, d) && p.start == 1
    requires forall i :: 0 <= i < |p.before| ==> Left(c, p.after[i]) == Left(c, p.before[i])
    ensures d <= |Valuations(c)|
  {
    LeftGrows(c, p, d, d + 1);
    var x := Left(c, p.before[d + 1]);
    assert x <= Valuations(c);
    assert Valuations(c) == x + (Valuations(c) - x);
  }

  /** Both verdicts are right.  `polls` is the number of times the verdict shared with the other
      threads is still found undecided.  The search ends undecided only if that is less than a bound for
      the depth reached, and each depth below was passed by a propagation that found no empty list: with
      enough polls every depth is either passed or decided. */
  method Check(c: Aig, usePr: bool, polls: nat) returns (v: Verdict, ghost depth: nat, ghost passed: seq<Pass>)
    requires WellFormed(c) && Shielded(c)
    ensures v.Unsafe? ==> IsWitness(c, v.start, v.inputs)
    ensures v.SafeVerdict? ==> Safe(c) && Certifies(c, v.certificate)
    ensures v.Undecided? ==> depth >= 1 && polls < RunBudget(|Valuations(c)|, depth) && |passed| == depth - 1 && AllPassed(c, passed)
  {
    hide IsWitness, Certifies, CodesOk, NoBadSuccessor, ObligationOk, Shielded, Covered, FrameOk, Sound, SolversOk, ListsOk, LiftOk,
      Size, Valuations, Cap, Budget, DepthBudget, RunBudget, Passed, AllPassed, Pending, StaysNonEmpty, Stronger, BadFree;
    depth, passed := 0, [];
    NonePassed(c);
    var k := Encode(c);
    var bad, m := CheckInitialBad(c, k);
    if bad {
      v := Unsafe(m, []);
      return;
    }
    var s := NewFrameSolver(c, k, true);
    bad, m := CheckBadSuccessor(c, k, s, true, {});
    if bad {
      var m' := Unprime(c, m);
      FirstStepWitness(c, m, m');
      v := Unsafe(m, [m']);
      return;
    }
    var e := new Engine(c, k, usePr, polls);
    depth := e.DepthOf();
    FrameOpened(c, e.fs, 0, 1);
    ghost var roots: nat := 0;
    while true
      invariant e.Valid() && e.c == c && e.polls <= polls && fresh(e)
      invariant depth == e.DepthOf() >= 1 && |passed| == depth - 1 && AllPassed(c, passed)
      invariant e.topFrameCannotReachBad <==> roots == 0
      invariant polls - e.polls + DepthBudget(Size(c, e.fs), Cap(|e.fs|)) <= RunBudget(|Valuations(c)|, depth)
      decreases e.polls
    {
      DepthPositive(Size(c, e.fs), Cap(|e.fs|));
      var stop := e.Poll();
      if stop {
        v := Undecided;
        return;
      }
      var root := e.GetPreOfBad();
      if root != null {
        ghost var m0, p0 := Size(c, e.fs), e.polls;
        v, stop := Block(e, root);
        if v.Unsafe? {
          return;
        }
        if stop {
          RootStopped(m0, p0, Cap(|e.fs|));
          return;
        }
        RootSpent(m0, Size(c, e.fs), p0 - e.polls, Cap(|e.fs|));
        roots := roots + 1;
      } else {
        var found;
        ghost var p;
        v, found, p := Advance(e, roots);
        if found {
          return;
        }
        PassedMore(c, passed, p);
        passed := passed + [p];
        roots, depth := 0, e.DepthOf();
        FrameOpened(c, e.fs, polls - e.polls, depth);
      }
    }
  }

  /** Propagates once the deepest frame has no bad successor: a verdict, or a new frame. */
  method Advance(e: Engine, ghost roots: nat) returns (v: Verdict, found: bool, ghost p: Pass)
    requires e.Valid() && BadFree(e.c, e.fs, |e.fs| - 2) && (e.topFrameCannotReachBad <==> roots == 0)
    modifies e
    ensures e.Valid() && e.polls == old(e.polls)
    ensures found ==> v.SafeVerdict? && Safe(e.c) && Certifies(e.c, v.certificate)
    ensures !found ==> e.DepthOf() == old(e.DepthOf()) + 1 && e.topFrameCannotReachBad && Passed(e.c, p, old(e.DepthOf())) && p.roots == roots
  {
    hide Safe, Certifies, CodesOk, Sound, SolversOk, ListsOk, LiftOk, StaysNonEmpty, Stronger, BadFree, Lists, Invariant;
    var depth := e.DepthOf();
    ghost var before, start, lowest := e.fs, e.StartFrame(), e.earliestStrengthened;
    v, p := Undecided, Pass([], [], [], 0, 0, 0);
    var i;
    found, i := e.Propagate();
    if found {
      v := Conclude(e, i);
    } else {
      p := Pass(before, e.fs, Lists(e.frames), start, roots, lowest);
      SameLength(e.frames);
      assert Passed(e.c, p, depth);
      e.NewFrame();
      e.topFrameCannotReachBad := true;
      e.earliestStrengthened := e.DepthOf();
    }
  }

  lemma SameLength(frames: seq<Frame>)
    ensures |Lists(frames)| == |frames|
  {
  }

  /** Blocks one counterexample to induction; afterwards it is excluded from the deepest frame and a state
      is gone, unless the search was stopped. */
  method Block(e: Engine, root: State) returns (v: Verdict, stopped: bool)
    requires e.Valid() && Shielded(e.c) && e.DepthOf() >= 1
    requires ObligationOk(e.c, e.fs, Obligation(root, e.DepthOf() - 1, 1)) && root.next != null
    requires Pending(e.c, e.fs, Obligation(root, e.DepthOf() - 1, 1))
    requires root.failedDepth == 0 && root.next.failedDepth == 0
    modifies e, root, root.next
    ensures e.Valid() && e.DepthOf() == old(e.DepthOf()) && e.polls <= old(e.polls) && !e.topFrameCannotReachBad
    ensures v.Unsafe? || v.Undecided?
    ensures v.Unsafe? ==> IsWitness(e.c, v.start, v.inputs)
    ensures stopped ==> v.Undecided? && old(e.polls) < Budget(old(Size(e.c, e.fs)), 1, Cap(|e.fs|)) && old(Size(e.c, e.fs)) > 0
    ensures v.Undecided? && !stopped ==>
              Covered(e.fs, |e.fs| - 2, root.latches) && Size(e.c, e.fs) < old(Size(e.c, e.fs)) &&
              old(e.polls) - e.polls <= Budget(old(Size(e.c, e.fs)), 1, Cap(|e.fs|))
  {
    hide IsWitness, CodesOk, ObligationOk, Shielded, Covered, Sound, SolversOk, ListsOk, LiftOk, Size, Budget, Cap, Pending;
    SomeLeft(e.c, e.fs, Obligation(root, e.DepthOf() - 1, 1));
    e.queue := {Obligation(root, e.DepthOf() - 1, 1)};
    e.arena := {root, root.next};
    e.topFrameCannotReachBad := false;
    var r := e.RecBlock(root);
    stopped := r.Stopped?;
    match r
    case Counterexample(start, inputs) => v := Unsafe(start, inputs);
    case AllBlocked => v := Undecided;
    case Stopped => v := Undecided;
  }

  /** An obligation that is pending shows a state that is left. */
  lemma SomeLeft(c: Aig, fs: seq<set<Cube>>, o: Obligation)
    requires WellFormed(c) && Sound(c, fs) && Pending(c, fs, o)
    ensures Size(c, fs) > 0
  {
    SoundCubes(c, fs);
    hide Sound, Valuations, IsCube;
    var e :| AllHold(e, o.state.latches) && Avoids(e, fs[o.level + 1]);
    AvoidsByLatches(c, e, fs[o.level + 1]);
    hide Avoids, AllHold;
    assert e * LatchVars(c) in Left(c, fs[o.level + 1]);
    SizeAt(c, fs, o.level + 1);
  }

  lemma ListedCubes(c: Aig, fs: seq<set<Cube>>, lists: seq<set<Cube>>, i: int)
    requires WellFormed(c) && Sound(c, fs) && ListsOk(fs, lists) && 0 <= i <= |lists|
    ensures forall q :: q in UnionFrom(lists, i) ==> IsCube(c, q)
  {
    hide IsCube, MeetsInit, Excludes, BadFree, Kept;
    forall q | q in UnionFrom(lists, i)
      ensures IsCube(c, q)
    {
      var j :| i <= j < |lists| && q in lists[j];
      assert q in fs[j];
    }
  }

  method Conclude(e: Engine, i: int) returns (v: Verdict)
    requires e.Valid() && 1 <= i <= e.DepthOf() && Invariant(e.c, UnionFrom(Lists(e.frames), i + 1))
    ensures v.SafeVerdict? && Safe(e.c) && Certifies(e.c, v.certificate)
  {
    hide Invariant, Safe, Certifies, CodesOk, SolversOk, LiftOk, InvariantValue, IsCube, Sound, ListsOk, UnionFrom;
    var cubes := UnionFrom(Lists(e.frames), i + 1);
    ListedCubes(e.c, e.fs, Lists(e.frames), i + 1);
    InvariantImpliesSafe(e.c, cubes);
    var d := BuildCertificate(e.c, cubes);
    v := SafeVerdict(d);
  }
}
