/** What the solver calls of the engine mean for the circuit: relative induction, bad successors,
    intersection with the initial states, and lifting of a predecessor to a cube. */
module FrameSolver {
  import opened Cnf
  import opened Circuit
  import opened Encoding
  import opened StepEncoding
  import opened Activation

  type Cube = set<int>

  /** The encodings computed once and loaded into every solver. */
  datatype Codes = Codes(
    base: set<Clause>,
    lim: nat,
    liftBase: set<Clause>,
    liftLim: nat,
    init: set<Clause>,
    badPrime: int,
    consPrimes: seq<int>)

  ghost predicate CodesOk(c: Aig, k: Codes)
    requires WellFormed(c)
  {
    && EncodesStep(c, k.base, k.lim, k.badPrime, k.consPrimes, true)
    && EncodesStep(c, k.liftBase, k.liftLim, k.badPrime, k.consPrimes, false)
    && EncodesInit(c, k.init)
  }

  // ----- frames -----

  function LemmaClauses(lemmas: set<Cube>): set<Clause> {
    set q | q in lemmas :: Negated(q)
  }

  /** Permanent clauses of a frame solver; frame 0 also holds the initial condition. */
  function Kernel(k: Codes, zero: bool, lemmas: set<Cube>): set<Clause> {
    k.base + Units(Range(k.consPrimes)) + (if zero then k.init else {}) + LemmaClauses(lemmas)
  }

  ghost predicate InFrame(c: Aig, zero: bool, lemmas: set<Cube>, e: set<int>)
    requires WellFormed(c)
  {
    (zero ==> Init(c, e)) && Avoids(e, lemmas)
  }

  ghost predicate FrameOk(c: Aig, k: Codes, zero: bool, lemmas: set<Cube>, s: Solver)
    requires WellFormed(c)
  {
    (forall q :: q in lemmas ==> IsCube(c, q)) && Loaded(s, Kernel(k, zero, lemmas), k.lim)
  }

  lemma LemmasMeaning(c: Aig, lemmas: set<Cube>, m: set<int>)
    requires forall q :: q in lemmas ==> IsCube(c, q)
    ensures Models(m, LemmaClauses(lemmas)) <==> Avoids(m, lemmas)
  {
    hide Satisfies, Negated, AllHold;
    forall q | q in lemmas
      ensures Negated(q) in LemmaClauses(lemmas) && (Satisfies(m, Negated(q)) <==> !AllHold(m, q))
    {
      NegatedSatisfied(m, q);
    }
  }

  lemma KernelParts(k: Codes, zero: bool, lemmas: set<Cube>, m: set<int>)
    ensures Models(m, Kernel(k, zero, lemmas)) <==>
            && Models(m, k.base) && AllHold(m, Range(k.consPrimes))
            && (zero ==> Models(m, k.init)) && Models(m, LemmaClauses(lemmas))
  {
    hide Satisfies, Units, LemmaClauses, AllHold, Range;
    UnitsMeaning(m, Range(k.consPrimes));
  }

  lemma ConsPrimesHold(c: Aig, m: set<int>, badPrime: int, consPrimes: seq<int>, cons: bool)
    requires WellFormed(c) && StepMeaning(c, m, badPrime, consPrimes, cons)
    ensures AllHold(m, Range(consPrimes)) <==> Constrained(c, Unprime(c, m))
  {
    hide Unprime, CurrentMeaning, Value;
    if AllHold(m, Range(consPrimes)) {
      forall j | 0 <= j < |c.constraints|
        ensures Value(c, Unprime(c, m), c.constraints[j])
      {
        assert consPrimes[j] in Range(consPrimes);
      }
    }
  }

  /** Every model of a frame solver is a step out of the frame. */
  lemma KernelSound(c: Aig, k: Codes, zero: bool, lemmas: set<Cube>, m: set<int>)
    requires WellFormed(c) && CodesOk(c, k) && (forall q :: q in lemmas ==> IsCube(c, q))
    requires Models(m, Kernel(k, zero, lemmas))
    ensures Step(c, m, Unprime(c, m)) && InFrame(c, zero, lemmas, m)
    ensures Holds(m, k.badPrime) <==> Bad(c, Unprime(c, m))
  {
    hide Kernel, Models, LemmaClauses, AllHold, Range, Bad, Constrained, Follows, Init, Unprime, Describes, AllWithin;
    KernelParts(k, zero, lemmas, m);
    LemmasMeaning(c, lemmas, m);
    ConsPrimesHold(c, m, k.badPrime, k.consPrimes, true);
  }

  /** Every step out of the frame is a model of its solver. */
  lemma KernelComplete(c: Aig, k: Codes, zero: bool, lemmas: set<Cube>, e: set<int>, e': set<int>)
    requires WellFormed(c) && CodesOk(c, k) && (forall q :: q in lemmas ==> IsCube(c, q))
    requires Step(c, e, e') && InFrame(c, zero, lemmas, e)
    ensures exists m :: Models(m, Kernel(k, zero, lemmas)) && Describes(c, m, e, e', k.lim)
  {
    hide Kernel, Models, LemmaClauses, AllHold, Range, Bad, Constrained, Follows, Init, Unprime, AllWithin, Consistent, SameLeaves, Avoids, StepMeaning;
    assert exists m :: Models(m, k.base) && Describes(c, m, e, e', k.lim);
    var m :| Models(m, k.base) && Describes(c, m, e, e', k.lim);
    KernelParts(k, zero, lemmas, m);
    LemmasMeaning(c, lemmas, m);
    AvoidsSame(c, m, e, lemmas);
    SemanticsSame(c, m, e);
    SemanticsSame(c, Unprime(c, m), e');
    ConsPrimesHold(c, m, k.badPrime, k.consPrimes, true);
  }

  lemma KernelWithin(c: Aig, k: Codes, zero: bool, lemmas: set<Cube>)
    requires WellFormed(c) && CodesOk(c, k) && (forall q :: q in lemmas ==> IsCube(c, q))
    ensures AllWithin(Kernel(k, zero, lemmas), k.lim)
  {
    hide Models, StepMeaning, Describes, Consistent, Init, Bad, Constrained, Follows;
    WithinLarger(k.init, MaxVar(c), k.lim);
  }

  // ----- cubes and their primes -----

  function LatchVars(c: Aig): set<int> {
    set v | v in UpTo(Leaves(c)) && IsLatch(c, v)
  }

  function InputVars(c: Aig): set<int> {
    set v | v in UpTo(Leaves(c)) && IsInput(c, v)
  }

  /** The literals of the given variables that are true in `m`. */
  function StateLits(vars: set<int>, m: set<int>): set<int> {
    set v | v in vars :: if v in m then v else -v
  }

  lemma LitsHold(vars: set<int>, m: set<int>, e: set<int>)
    requires forall v :: v in vars ==> v > 0
    ensures AllHold(e, StateLits(vars, m)) <==> forall v :: v in vars ==> (v in e <==> v in m)
  {
    if AllHold(e, StateLits(vars, m)) {
      forall v | v in vars
        ensures v in e <==> v in m
      {
        assert (if v in m then v else -v) in StateLits(vars, m);
      }
    }
  }

  lemma LatchLitsCube(c: Aig, m: set<int>)
    ensures IsCube(c, StateLits(LatchVars(c), m)) && AllHold(m, StateLits(LatchVars(c), m))
  {
  }

  function PrimeCube(c: Aig, q: Cube): set<int>
    requires IsCube(c, q)
  {
    set l | l in q :: PrimeLeaf(c, l)
  }

  lemma PrimeLeafMeaning(c: Aig, l: int, m: set<int>)
    requires l != 0 && 2 <= Abs(l) <= Leaves(c)
    ensures Holds(m, PrimeLeaf(c, l)) <==> Holds(Unprime(c, m), l)
    ensures IsLit(PrimeLeaf(c, l), FirstPrime(c) + c.inputs + c.latches - 1)
  {
  }

  lemma PrimeCubeMeaning(c: Aig, q: Cube, m: set<int>)
    requires IsCube(c, q)
    ensures AllHold(m, PrimeCube(c, q)) <==> AllHold(Unprime(c, m), q)
  {
    hide Unprime, PrimeLeaf, Holds;
    forall l | l in q
      ensures PrimeLeaf(c, l) in PrimeCube(c, q) && (Holds(m, PrimeLeaf(c, l)) <==> Holds(Unprime(c, m), l))
    {
      PrimeLeafMeaning(c, l, m);
    }
  }

  lemma PrimeCubeWithin(c: Aig, q: Cube, n: int)
    requires IsCube(c, q) && FirstPrime(c) + c.inputs + c.latches - 1 <= n
    ensures Within(PrimeCube(c, q), n) && Within(Negated(PrimeCube(c, q)), n) && Within(q, n) && Within(Negated(q), n)
  {
    forall l | l in q
      ensures IsLit(PrimeLeaf(c, l), n)
    {
      PrimeLeafMeaning(c, l, {});
    }
  }

  /** The part of a cube whose primed literals failed. */
  function CoreOf(c: Aig, q: Cube, failed: set<int>): (core: Cube)
    requires IsCube(c, q)
    ensures core <= q && IsCube(c, core)
  {
    set l | l in q && PrimeLeaf(c, l) in failed
  }

  lemma CoreOfPrimes(c: Aig, q: Cube, failed: set<int>)
    requires IsCube(c, q) && failed <= PrimeCube(c, q)
    ensures PrimeCube(c, CoreOf(c, q, failed)) == failed
  {
    forall p | p in failed
      ensures p in PrimeCube(c, CoreOf(c, q, failed))
    {
      var l :| l in q && PrimeLeaf(c, l) == p;
      assert l in CoreOf(c, q, failed);
    }
  }

  // ----- relative induction -----

  datatype Outcome = Inductive(core: Cube) | Predecessor(model: set<int>)

  /** No step out of the frame that starts outside `cube` ends inside `core`. */
  ghost predicate Blocked(c: Aig, zero: bool, lemmas: set<Cube>, cube: Cube, core: Cube)
    requires WellFormed(c)
  {
    forall e, e' :: InFrame(c, zero, lemmas, e) && Step(c, e, e') && !AllHold(e, cube) ==> !AllHold(e', core)
  }

  ghost predicate Reaches(c: Aig, zero: bool, lemmas: set<Cube>, cube: Cube, m: set<int>)
    requires WellFormed(c)
  {
    && InFrame(c, zero, lemmas, m) && Step(c, m, Unprime(c, m))
    && !AllHold(m, cube) && AllHold(Unprime(c, m), cube)
  }

  lemma BlockedFromUnsat(c: Aig, k: Codes, zero: bool, lemmas: set<Cube>, cube: Cube, core: Cube)
    requires WellFormed(c) && CodesOk(c, k) && (forall q :: q in lemmas ==> IsCube(c, q)) && IsCube(c, cube) && IsCube(c, core)
    requires forall m :: Models(m, Kernel(k, zero, lemmas)) && Satisfies(m, Negated(cube)) ==> !AllHold(m, PrimeCube(c, core))
    ensures Blocked(c, zero, lemmas, cube, core)
  {
    hide CodesOk, Kernel, Models, Satisfies, Negated, PrimeCube, AllHold, InFrame, Step, Unprime, SameLeaves, Consistent;
    forall e, e' | InFrame(c, zero, lemmas, e) && Step(c, e, e') && !AllHold(e, cube)
      ensures !AllHold(e', core)
    {
      KernelComplete(c, k, zero, lemmas, e, e');
      var m :| Models(m, Kernel(k, zero, lemmas)) && Describes(c, m, e, e', k.lim);
      CubeSame(c, m, e, cube);
      NegatedSatisfied(m, cube);
      PrimeCubeMeaning(c, core, m);
      CubeSame(c, Unprime(c, m), e', core);
    }
  }

  method CheckInductive(c: Aig, k: Codes, s: Solver, cube: Cube, ghost zero: bool, ghost lemmas: set<Cube>)
    returns (t: Solver, o: Outcome)
    requires WellFormed(c) && CodesOk(c, k) && FrameOk(c, k, zero, lemmas, s) && IsCube(c, cube)
    ensures FrameOk(c, k, zero, lemmas, t)
    ensures o.Inductive? ==> o.core <= cube && IsCube(c, o.core) && Blocked(c, zero, lemmas, cube, o.core)
    ensures o.Predecessor? ==> Reaches(c, zero, lemmas, cube, o.model)
  {
    hide Kernel, Models, Satisfies, Negated, PrimeCube, AllHold, Loaded, Within, Blocked, CoreOf, StepMeaning, Describes, InFrame, Step, Unprime;
    PrimeCubeWithin(c, cube, k.lim);
    var a;
    t, a := Query(s, Negated(cube), PrimeCube(c, cube), Kernel(k, zero, lemmas), k.lim);
    match a
    case Sat(m) =>
      KernelSound(c, k, zero, lemmas, m);
      NegatedSatisfied(m, cube);
      PrimeCubeMeaning(c, cube, m);
      o := Predecessor(m);
    case Unsat(failed) =>
      var core := CoreOf(c, cube, failed);
      CoreOfPrimes(c, cube, failed);
      BlockedFromUnsat(c, k, zero, lemmas, cube, core);
      o := Inductive(core);
  }

  method AddLemma(c: Aig, k: Codes, s: Solver, q: Cube, ghost zero: bool, ghost lemmas: set<Cube>) returns (t: Solver)
    requires WellFormed(c) && CodesOk(c, k) && FrameOk(c, k, zero, lemmas, s) && IsCube(c, q)
    ensures FrameOk(c, k, zero, lemmas + {q}, t)
  {
    hide Models, Satisfies, Negated, AllHold, Loaded, Within, StepMeaning, Describes;
    PrimeCubeWithin(c, q, k.lim);
    t := AddPermanent(s, Negated(q), Kernel(k, zero, lemmas), k.lim);
    assert LemmaClauses(lemmas + {q}) == LemmaClauses(lemmas) + {Negated(q)};
    assert Kernel(k, zero, lemmas + {q}) == Kernel(k, zero, lemmas) + {Negated(q)};
  }

  /** A solver for a new frame, with no lemma yet. */
  method NewFrameSolver(c: Aig, k: Codes, zero: bool) returns (s: Solver)
    requires WellFormed(c) && CodesOk(c, k)
    ensures FrameOk(c, k, zero, {}, s)
  {
    hide StepMeaning, Describes, Models, Satisfies, Kernel;
    KernelWithin(c, k, zero, {});
    s := Solver(Kernel(k, zero, {}), k.lim, false);
  }

  // ----- bad successors -----

  ghost predicate NoBadSuccessor(c: Aig, zero: bool, lemmas: set<Cube>)
    requires WellFormed(c)
  {
    forall e, e' :: InFrame(c, zero, lemmas, e) && Step(c, e, e') ==> !Bad(c, e')
  }

  method CheckBadSuccessor(c: Aig, k: Codes, s: Solver, ghost zero: bool, ghost lemmas: set<Cube>) returns (found: bool, m: set<int>)
    requires WellFormed(c) && CodesOk(c, k) && FrameOk(c, k, zero, lemmas, s)
    ensures found ==> InFrame(c, zero, lemmas, m) && Step(c, m, Unprime(c, m)) && Bad(c, Unprime(c, m))
    ensures !found ==> NoBadSuccessor(c, zero, lemmas)
  {
    hide Kernel, Models, Satisfies, InFrame, Step, Unprime, StepMeaning, Loaded, AllWithin;
    var b := {k.badPrime};
    var a := PlainQuery(s, b, Kernel(k, zero, lemmas), k.lim);
    match a
    case Sat(w) =>
      assert k.badPrime in b;
      KernelSound(c, k, zero, lemmas, w);
      found, m := true, w;
    case Unsat(core) =>
      found, m := false, {};
      forall e, e' | InFrame(c, zero, lemmas, e) && Step(c, e, e')
        ensures !Bad(c, e')
      {
        NoBadFromUnsat(c, k, zero, lemmas, core, e, e');
      }
  }

  lemma NoBadFromUnsat(c: Aig, k: Codes, zero: bool, lemmas: set<Cube>, core: set<int>, e: set<int>, e': set<int>)
    requires WellFormed(c) && CodesOk(c, k) && (forall q :: q in lemmas ==> IsCube(c, q))
    requires core <= {k.badPrime} && forall m :: Models(m, Kernel(k, zero, lemmas)) ==> !AllHold(m, core)
    requires InFrame(c, zero, lemmas, e) && Step(c, e, e')
    ensures !Bad(c, e')
  {
    hide CodesOk, Kernel, Models, InFrame, Step, Unprime, Bad, SameLeaves, Consistent;
    KernelComplete(c, k, zero, lemmas, e, e');
    var m :| Models(m, Kernel(k, zero, lemmas)) && Describes(c, m, e, e', k.lim);
    KernelSound(c, k, zero, lemmas, m);
    SemanticsSame(c, Unprime(c, m), e');
  }

  // ----- initial states -----

  ghost predicate MeetsInit(c: Aig, q: Cube)
    requires WellFormed(c)
  {
    exists e :: Init(c, e) && AllHold(e, q)
  }

  /** Does a cube contain an initial state? */
  method CheckInit(c: Aig, k: Codes, q: Cube) returns (b: bool)
    requires WellFormed(c) && CodesOk(c, k) && IsCube(c, q)
    ensures b <==> MeetsInit(c, q)
  {
    hide StepMeaning, Describes, Models, Satisfies, EncodesStep, Init, Consistent;
    var a := Solve(k.init, q, MaxVar(c));
    match a
    case Sat(m) =>
      assert Init(c, m);
      b := true;
    case Unsat(core) =>
      b := false;
      forall e | Init(c, e)
        ensures !AllHold(e, q)
      {
        var m := Completion(c, e);
        SemanticsSame(c, e, m);
        CubeSame(c, e, m, q);
        assert Models(m, k.init);
      }
  }

  // ----- lifting -----

  datatype Target = ToBad | ToCube(q: Cube)

  ghost predicate Hits(c: Aig, g: Target, e: set<int>)
    requires WellFormed(c)
  {
    match g
    case ToBad => Bad(c, e)
    case ToCube(q) => AllHold(e, q)
  }

  ghost predicate SameInputs(c: Aig, a: set<int>, b: set<int>) {
    forall v :: IsInput(c, v) ==> (v in a <==> v in b)
  }

  /** The guarantee of a lifted cube: from each of its states, under the recorded inputs, bad holds
      already or the constraints hold on both sides and the target is hit. */
  ghost predicate Lifted(c: Aig, q: Cube, ins: set<int>, ins': set<int>, g: Target)
    requires WellFormed(c)
  {
    forall e, e' :: AllHold(e, q) && SameInputs(c, e, ins) && SameInputs(c, e', ins') && Follows(c, e, e') ==>
      Bad(c, e) || (Constrained(c, e) && Constrained(c, e') && Hits(c, g, e'))
  }

  /** What the engine takes a lifted cube to mean: each of its states, under the recorded inputs, meets
      the constraints and is bad already or steps into the target. */
  ghost predicate Legal(c: Aig, q: Cube, ins: set<int>, ins': set<int>, g: Target)
    requires WellFormed(c)
  {
    forall e, e' :: AllHold(e, q) && SameInputs(c, e, ins) && SameInputs(c, e', ins') && Follows(c, e, e') ==>
      Constrained(c, e) && (Bad(c, e) || (Step(c, e, e') && Hits(c, g, e')))
  }

  /** The cubes that lifting returns: part of the source of a step into the target, and lifted. */
  ghost predicate Returned(c: Aig, q: Cube, m: set<int>, m': set<int>, g: Target)
    requires WellFormed(c)
  {
    && Step(c, m, m') && Hits(c, g, m') && (g.ToCube? ==> IsCube(c, g.q))
    && IsCube(c, q) && AllHold(m, q) && Lifted(c, q, m, m', g)
  }

  function TargetLits(c: Aig, k: Codes, g: Target): set<int>
    requires g.ToCube? ==> IsCube(c, g.q)
  {
    match g
    case ToBad => {k.badPrime}
    case ToCube(q) => PrimeCube(c, q)
  }

  function InputPrimes(c: Aig, m: set<int>): set<int> {
    set v | v in InputVars(c) :: if LeafPrime(c, v) in m then LeafPrime(c, v) else -LeafPrime(c, v)
  }

  lemma InputPrimesHold(c: Aig, m: set<int>, w: set<int>)
    ensures AllHold(w, InputPrimes(c, m)) <==> SameInputs(c, Unprime(c, w), Unprime(c, m))
  {
    if AllHold(w, InputPrimes(c, m)) {
      forall v | IsInput(c, v)
        ensures v in Unprime(c, w) <==> v in Unprime(c, m)
      {
        assert v in InputVars(c);
        assert (if LeafPrime(c, v) in m then LeafPrime(c, v) else -LeafPrime(c, v)) in InputPrimes(c, m);
      }
    }
    if SameInputs(c, Unprime(c, w), Unprime(c, m)) {
      forall l | l in InputPrimes(c, m)
        ensures Holds(w, l)
      {
        var v :| v in InputVars(c) && l == (if LeafPrime(c, v) in m then LeafPrime(c, v) else -LeafPrime(c, v));
        assert IsInput(c, v);
        assert v in Unprime(c, w) <==> v in Unprime(c, m);
      }
    }
  }

  /** Everything that must fail together in the lifting clause. */
  function LiftLits(c: Aig, k: Codes, g: Target): set<int>
    requires g.ToCube? ==> IsCube(c, g.q)
  {
    Range(c.constraints) + Range(k.consPrimes) + TargetLits(c, k, g)
  }

  lemma LiftLitsMeaning(c: Aig, k: Codes, g: Target, w: set<int>)
    requires WellFormed(c) && (g.ToCube? ==> IsCube(c, g.q))
    requires StepMeaning(c, w, k.badPrime, k.consPrimes, false)
    ensures AllHold(w, LiftLits(c, k, g)) <==>
            Constrained(c, w) && Constrained(c, Unprime(c, w)) && Hits(c, g, Unprime(c, w))
  {
    hide Unprime, Bad, Constrained, Value, Follows, PrimeCube, Range;
    ConstraintsHold(c, w);
    ConsPrimesHold(c, w, k.badPrime, k.consPrimes, false);
    match g
    case ToBad => assert AllHold(w, TargetLits(c, k, g)) <==> Holds(w, k.badPrime) by {
        assert k.badPrime in TargetLits(c, k, g);
      }
    case ToCube(q) => PrimeCubeMeaning(c, q, w);
  }

  lemma LiftLitsWithin(c: Aig, k: Codes, g: Target)
    requires WellFormed(c) && CodesOk(c, k) && (g.ToCube? ==> IsCube(c, g.q))
    ensures Within(LiftLits(c, k, g), k.liftLim) && Within(Negated(LiftLits(c, k, g)), k.liftLim)
  {
    hide Models, StepMeaning, Describes, PrimeCube, Negated;
    if g.ToCube? {
      PrimeCubeWithin(c, g.q, k.liftLim);
    }
    NegatedWithin(LiftLits(c, k, g), k.liftLim);
  }

  lemma NegatedWithin(ls: set<int>, n: int)
    requires Within(ls, n)
    ensures Within(Negated(ls), n)
  {
  }

  function LiftAssumptions(c: Aig, m: set<int>): set<int> {
    StateLits(InputVars(c), m) + InputPrimes(c, m) + StateLits(LatchVars(c), m)
  }

  lemma LiftAssumptionsWithin(c: Aig, m: set<int>, n: int)
    requires FirstPrime(c) + c.inputs + c.latches - 1 <= n
    ensures Within(LiftAssumptions(c, m), n)
  {
  }

  /** Latches of the successor are determined by the state, so the query with the full
      predecessor assumed cannot be satisfied. */
  lemma LiftUnsat(c: Aig, k: Codes, g: Target, m: set<int>, w: set<int>)
    requires WellFormed(c) && CodesOk(c, k) && (g.ToCube? ==> IsCube(c, g.q))
    requires Step(c, m, Unprime(c, m)) && Hits(c, g, Unprime(c, m))
    requires Models(w, k.liftBase) && AllHold(w, LiftAssumptions(c, m))
    ensures !Satisfies(w, Negated(LiftLits(c, k, g)))
  {
    hide Models, Satisfies, Negated, LiftLits, Describes, AllHold, InputPrimes, StateLits, InputVars, LatchVars, Unprime;
    assert StepMeaning(c, w, k.badPrime, k.consPrimes, false);
    HoldsUnion(w, StateLits(InputVars(c), m) + InputPrimes(c, m), StateLits(LatchVars(c), m));
    HoldsUnion(w, StateLits(InputVars(c), m), InputPrimes(c, m));
    FullLeaves(c, w, m);
    InputPrimesHold(c, m, w);
    SemanticsSame(c, w, m);
    SuccessorLeaves(c, w, m);
    SemanticsSame(c, Unprime(c, w), Unprime(c, m));
    if g.ToCube? {
      CubeSame(c, Unprime(c, w), Unprime(c, m), g.q);
    }
    LiftLitsMeaning(c, k, g, w);
    LiftLitsWithin(c, k, g);
    NegatedSatisfied(w, LiftLits(c, k, g));
  }

  lemma HoldsUnion(w: set<int>, a: set<int>, b: set<int>)
    ensures AllHold(w, a + b) <==> AllHold(w, a) && AllHold(w, b)
  {
  }

  lemma FullLeaves(c: Aig, w: set<int>, m: set<int>)
    requires AllHold(w, StateLits(InputVars(c), m)) && AllHold(w, StateLits(LatchVars(c), m))
    ensures SameLeaves(c, w, m)
  {
    hide AllHold, StateLits;
    LitsHold(InputVars(c), m, w);
    LitsHold(LatchVars(c), m, w);
    forall v | 2 <= v <= Leaves(c)
      ensures v in w <==> v in m
    {
      assert v in InputVars(c) || v in LatchVars(c);
    }
  }

  lemma SuccessorLeaves(c: Aig, w: set<int>, m: set<int>)
    requires WellFormed(c) && SameLeaves(c, w, m)
    requires Follows(c, w, Unprime(c, w)) && Follows(c, m, Unprime(c, m))
    requires SameInputs(c, Unprime(c, w), Unprime(c, m))
    ensures SameLeaves(c, Unprime(c, w), Unprime(c, m))
  {
    hide Unprime, Value;
    SemanticsSame(c, w, m);
    assert Follows(c, w, Unprime(c, m));
    forall v | 2 <= v <= Leaves(c)
      ensures v in Unprime(c, w) <==> v in Unprime(c, m)
    {
      if IsInput(c, v) {
      } else {
        assert LatchVar(c, v - c.inputs - 2) == v;
      }
    }
  }

  lemma LiftedFromUnsat(c: Aig, k: Codes, g: Target, m: set<int>, core: set<int>)
    requires WellFormed(c) && CodesOk(c, k) && (g.ToCube? ==> IsCube(c, g.q))
    requires core <= LiftAssumptions(c, m)
    requires forall w :: Models(w, k.liftBase) && Satisfies(w, Negated(LiftLits(c, k, g))) ==> !AllHold(w, core)
    ensures Lifted(c, core * StateLits(LatchVars(c), m), m, Unprime(c, m), g)
  {
    hide Models, Satisfies, Negated, LiftLits, AllHold, InputPrimes, StateLits, InputVars, LatchVars, Unprime, StepMeaning, Constrained, Follows, Bad, AllWithin, Consistent, EncodesInit;
    var t := core * StateLits(LatchVars(c), m);
    forall e, e' | AllHold(e, t) && SameInputs(c, e, m) && SameInputs(c, e', Unprime(c, m)) && Follows(c, e, e') && !Bad(c, e)
      ensures Constrained(c, e) && Constrained(c, e') && Hits(c, g, e')
    {
      assert exists w :: Models(w, k.liftBase) && Describes(c, w, e, e', k.liftLim);
      var w :| Models(w, k.liftBase) && Describes(c, w, e, e', k.liftLim);
      CoreHolds(c, m, core, w, e, e');
      LiftLitsWithin(c, k, g);
      NegatedSatisfied(w, LiftLits(c, k, g));
      LiftLitsMeaning(c, k, g, w);
      SemanticsSame(c, w, e);
      SemanticsSame(c, Unprime(c, w), e');
      if g.ToCube? {
        CubeSame(c, Unprime(c, w), e', g.q);
      }
    }
  }

  lemma CoreHolds(c: Aig, m: set<int>, core: set<int>, w: set<int>, e: set<int>, e': set<int>)
    requires core <= LiftAssumptions(c, m) && AllHold(e, core * StateLits(LatchVars(c), m))
    requires SameInputs(c, e, m) && SameInputs(c, e', Unprime(c, m))
    requires SameLeaves(c, w, e) && SameLeaves(c, Unprime(c, w), e')
    ensures AllHold(w, core)
  {
    hide Unprime, InputPrimes, UpTo;
    LitsHold(InputVars(c), m, w);
    assert SameInputs(c, Unprime(c, w), Unprime(c, m));
    InputPrimesHold(c, m, w);
    forall l | l in core * StateLits(LatchVars(c), m)
      ensures Holds(w, l)
    {
      assert 2 <= Abs(l) <= Leaves(c);
    }
    forall v | v in InputVars(c)
      ensures v in w <==> v in m
    {
      assert IsInput(c, v) && 2 <= v <= Leaves(c);
    }
  }

  lemma LatchPart(c: Aig, q: Cube, m: set<int>)
    requires q <= StateLits(LatchVars(c), m)
    ensures IsCube(c, q) && AllHold(m, q)
  {
    LatchLitsCube(c, m);
    LitsHold(LatchVars(c), m, m);
  }

  /** The answer to the lifting query that makes it return `q`. */
  ghost function CoreFor(c: Aig, m: set<int>, q: Cube): set<int> {
    q + StateLits(InputVars(c), m) + InputPrimes(c, m)
  }

  /** Every cube of this kind can be returned: its literals and the recorded inputs are a correct set
      of failed assumptions for the lifting query. */
  lemma LiftCanReturn(c: Aig, k: Codes, m: set<int>, g: Target, q: Cube)
    requires WellFormed(c) && CodesOk(c, k) && q <= StateLits(LatchVars(c), m) && (g.ToCube? ==> IsCube(c, g.q))
    requires Returned(c, q, m, Unprime(c, m), g)
    ensures Correct(k.liftBase + {Negated(LiftLits(c, k, g))}, LiftAssumptions(c, m), Unsat(CoreFor(c, m, q)))
    ensures CoreFor(c, m, q) * StateLits(LatchVars(c), m) == q
  {
    hide *;
    CoreLatches(c, m, q);
    LiftCoreRefutes(c, k, m, g, q);
    UnsatCorrect(k.liftBase + {Negated(LiftLits(c, k, g))}, LiftAssumptions(c, m), CoreFor(c, m, q));
  }

  lemma UnsatCorrect(f: set<Clause>, assumptions: set<int>, core: set<int>)
    requires core <= assumptions && forall w :: Models(w, f) ==> !AllHold(w, core)
    ensures Correct(f, assumptions, Unsat(core))
  {
  }

  lemma LiftCoreRefutes(c: Aig, k: Codes, m: set<int>, g: Target, q: Cube)
    requires WellFormed(c) && CodesOk(c, k) && (g.ToCube? ==> IsCube(c, g.q)) && Returned(c, q, m, Unprime(c, m), g)
    ensures forall w :: Models(w, k.liftBase + {Negated(LiftLits(c, k, g))}) ==> !AllHold(w, CoreFor(c, m, q))
  {
    hide Models, Satisfies, Negated, LiftLits, InputPrimes, StateLits, InputVars, AllHold, Returned, CodesOk, Unprime;
    var cl := Negated(LiftLits(c, k, g));
    forall w | Models(w, k.liftBase + {cl})
      ensures !AllHold(w, CoreFor(c, m, q))
    {
      ModelsUnion(w, k.liftBase, {cl});
      OneClause(w, cl);
      if AllHold(w, CoreFor(c, m, q)) {
        LiftedRefutes(c, k, m, g, q, w);
      }
    }
  }

  lemma OneClause(w: set<int>, cl: Clause)
    requires Models(w, {cl})
    ensures Satisfies(w, cl)
  {
  }

  lemma CoreLatches(c: Aig, m: set<int>, q: Cube)
    requires q <= StateLits(LatchVars(c), m)
    ensures CoreFor(c, m, q) * StateLits(LatchVars(c), m) == q && CoreFor(c, m, q) <= LiftAssumptions(c, m)
  {
    forall l | l in StateLits(LatchVars(c), m)
      ensures l !in StateLits(InputVars(c), m) && l !in InputPrimes(c, m)
    {
      assert IsLatch(c, Abs(l));
    }
  }

  lemma LiftedRefutes(c: Aig, k: Codes, m: set<int>, g: Target, q: Cube, w: set<int>)
    requires WellFormed(c) && CodesOk(c, k) && Returned(c, q, m, Unprime(c, m), g)
    requires Models(w, k.liftBase) && AllHold(w, q + StateLits(InputVars(c), m) + InputPrimes(c, m))
    ensures !Satisfies(w, Negated(LiftLits(c, k, g)))
  {
    hide Models, Satisfies, Negated, LiftLits, Describes, InputPrimes, StateLits, Unprime, LatchVars, Hits, Value, AllWithin, EncodesInit, SameInputs;
    assert StepMeaning(c, w, k.badPrime, k.consPrimes, false);
    HoldsUnion(w, q + StateLits(InputVars(c), m), InputPrimes(c, m));
    HoldsUnion(w, q, StateLits(InputVars(c), m));
    LitsHold(InputVars(c), m, w);
    InputPrimesHold(c, m, w);
    InputLits(c, m, w);
    hide AllHold, InputVars;
    LiftLitsMeaning(c, k, g, w);
    LiftLitsWithin(c, k, g);
    NegatedSatisfied(w, LiftLits(c, k, g));
  }

  lemma InputLits(c: Aig, m: set<int>, w: set<int>)
    requires forall v :: v in InputVars(c) ==> (v in w <==> v in m)
    ensures SameInputs(c, w, m)
  {
    forall v | IsInput(c, v)
      ensures v in w <==> v in m
    {
      assert v in InputVars(c);
    }
  }

  /** Shrinks the predecessor found in `m` to a cube all of whose states behave alike. */
  method Lift(c: Aig, k: Codes, s: Solver, m: set<int>, g: Target) returns (t: Solver, q: Cube)
    requires WellFormed(c) && CodesOk(c, k) && Loaded(s, k.liftBase, k.liftLim) && (s.clearFlag ==> k.liftLim < s.nv)
    requires g.ToCube? ==> IsCube(c, g.q)
    requires Step(c, m, Unprime(c, m)) && Hits(c, g, Unprime(c, m))
    ensures Loaded(t, k.liftBase, k.liftLim) && t.clearFlag && k.liftLim < t.nv
    ensures q <= StateLits(LatchVars(c), m) && Returned(c, q, m, Unprime(c, m), g)
  {
    hide Models, Satisfies, Negated, AllHold, Loaded, Within, LiftLits, LiftAssumptions, StateLits, Unprime, Step, Hits, StepMeaning, Describes, Lifted, AllWithin;
    LoadedSize(s, k.liftBase, k.liftLim);
    t := ClearAct(s, k.liftBase, k.liftLim);
    LiftLitsWithin(c, k, g);
    LiftAssumptionsWithin(c, m, k.liftLim);
    var a;
    t, a := Query(t, Negated(LiftLits(c, k, g)), LiftAssumptions(c, m), k.liftBase, k.liftLim);
    if a.Sat? {
      LiftUnsat(c, k, g, m, a.model);
      assert false;
    }
    LiftedFromUnsat(c, k, g, m, a.core);
    q := a.core * StateLits(LatchVars(c), m);
    LatchPart(c, q, m);
    t := SetClearAct(t);
    LoadedFlag(t, k.liftBase, k.liftLim);
  }

  lemma LoadedSize(s: Solver, kernel: set<Clause>, lim: int)
    requires Loaded(s, kernel, lim)
    ensures lim <= s.nv
  {
  }

  lemma LoadedFlag(s: Solver, kernel: set<Clause>, lim: int)
    ensures Loaded(s, kernel, lim) <==> Loaded(s.(clearFlag := false), kernel, lim)
  {
  }
}
