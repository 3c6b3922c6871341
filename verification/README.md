# A verified model of the hardware model checker

The repository is a bit-level model checker for AIGER circuits.  It answers whether a bad state can be
reached from the reset state through states that meet the invariant constraints, with two engines: an
IC3/PDR engine that keeps a sequence of frames, and a bounded model checker that unrolls the circuit.
Both sit on an incremental SAT solver, CaDiCaL 1.5.2, which is part of the repository.  This project
models the three layers and proves what they promise.

**The circuit and the question** (`Circuit`): an and-inverter graph with latches in the DIMACS numbering
of the engines, traces, counterexamples and `Safe`, with no reference to any algorithm.

**The PDR engine.**  `Encoding`, `StepEncoding`: the cone-of-influence formula of the transition relation.
`Activation`, `FrameSolver`: SAT queries with temporary clauses, relative induction, lifting.  `Ic3`:
what every change to the frames keeps.  `Witness`, `Obligations`: proof obligations and a measure that
treating one lowers.  `Pdr`: the engine as a class, its queue, generalisation, pushing and propagation.  `Certificate`, `Check`: the appended gates and the two
verdicts.  `ConstraintGap`: a circuit with an invariant constraint on which lifting goes wrong.

**The BMC engine.**  `Unroll`, `Bmc`: two-level simplification, structural hashing, simultaneous latch
update, incremental clause loading, frames divided over threads.

**The SAT solver.**  `Trail`, `Analyze`, `Minimize`, `Search`, `FailedAssumptions`: conflict analysis,
learning, chronological backtracking, failed assumptions.  `Extension`, `Elim`, `Gates`, `MatchedGates`,
`XorGates`, `Substitution`, `EliminationRound`: variable elimination with gates and its reconstruction.
`BlockedClauses`: blocked clause elimination.  `Graph`, `Dfs`, `Tarjan`, `Decompose`: equivalent literal
substitution.  `Watches`, `LitOrder`, `ClauseTable`, `Checker`: the online proof checker.

The main results are `Check.Check` (both PDR verdicts are right, and every depth is passed or decided within a
bounded number of rounds), `Ic3.LiftingIsLegalIff`
(when lifting is right), `Bmc.CheckFrames` (sound, and a thread responsible for the length of a shortest
counterexample finds one of that length unless it is stopped), `Search.Cdcl.AnalyzeConflict` and
`Search.Cdcl.FailedCore`, `Elim.Eliminate` (an elimination is undone exactly if the pivot survives),
`EliminationRound.Round`, `Decompose.DecomposeRound`, `BlockedClauses.BlockWithNegatives`,
`Checker.Checker.AddDerivedClause` (accepted clauses follow) and `Checker.Checker.KeepsMeaning` (nothing is lost).

## Conventions of the model

* A SAT call of the engines is a method with the contract of the incremental interface: a model of
  formula and assumptions, or a set of failed assumptions that contradicts the formula
  (`Cnf.Solve`).  `Search.Cdcl.FailedCore` proves this contract for the modelled part of CaDiCaL.
  MiniSat's `eliminate` is a projection onto the frozen variables (`Cnf.Simplify`).
* Cubes and clauses are sets where the order of literals only steers the search, and sequences where
  the code depends on order.  Choices made by heuristics (literal scores, assumption order, which
  counterexample a solver returns) are arbitrary, so the theorems hold for all of them.
* `polls` counts how often a loop of the PDR engine still finds the shared `RESULT` undecided; every
  finite run is covered by some value.
* Machine integers are unbounded; node indices and hash values are assumed to stay in range.

## Where the code needs a condition

* `encode_lift` asserts that the predecessor is not bad but does not assert the invariant constraints
  (PDR.cpp:662-742).  A lifted cube can then contain a state that is bad and violates a constraint, which the
  engine nevertheless counts as reaching bad.  `Ic3.LiftingIsLegalIff` proves that every cube lifting can return
  means what the engine takes it to mean if and only if the circuit is `Ic3.Shielded`: between the source of a
  step and a bad state with the same inputs that violates the constraints there is always a state that spoils
  the lifting.  `FrameSolver.LiftCanReturn` shows that all the cubes in question are possible answers.  The
  condition holds without constraints and whenever bad implies them (`Ic3.BadMeetsConstraints`), when the
  constraints read only inputs (`Ic3.InputConstraints`), and when bad implies them under the inputs of each step
  (`Ic3.BadUnderStepInputs`).  `ConstraintGap.ExampleWrongVerdict` follows a run on a circuit that is not
  shielded to the verdict safe, although the circuit has a counterexample of three states.
* The matching of if-then-else and XOR clauses skips literals that are true at the root level as well as
  false ones.  Units found while resolvents are added are not propagated before the next pivot
  (cadical/src/elim.cpp:221-230), so an occurrence list can hold a clause that is satisfied at the root and has not
  been removed.  `MatchedGates.IteDefines` and `XorGates.XorDefines` prove that the matched clauses define the pivot
  if and only if none of them is root-level satisfied, `Elim.ReversibleIff` that a substitution can be undone
  whatever the other clauses are if and only if the gate defines the pivot, and `Substitution.ReversibleIffClean`
  combines the two.  Equivalences, AND gates and elimination without a gate need nothing.
  `EliminationRound.Round` carries the units through a run of attempts, and `EliminationRound.ExampleLoses` gives
  clauses and a unit on which a matched gate loses a model that no value of the pivot restores.
* The search for an if-then-else looks for the condition in one place of the first clause.
  `MatchedGates.FindIfThenElse` finds a gate if and only if some pair of clauses has it there, and
  `MatchedGates.ExampleMissed` shows four clauses that form a gate and are missed.

The documentation promises the line `result: safe` for safe circuits, while main.cpp:130-135 tests for "not 10"
first and so prints the line about frames when `RESULT` is 20; output is not part of this model, and the verdicts
are those of the engines.

## Model

| member | source | states |
|---|---|---|
| Cnf.Solve | sat_solver.hpp:54-62 | a model of clauses and assumptions, or failed assumptions that contradict the clauses: the contract the engines rely on |
| Cnf.Simplify | sat_solver.hpp:161-201 | preprocessing keeps satisfiability for every valuation of the frozen variables: each model of the result agrees on them with a model of the input |
| Cnf.GateMeaning | PDR.cpp:626-628 | the three clauses of an AND gate hold exactly when the output is the conjunction |
| Circuit.SemanticsSame | PDR.cpp:258-301 | bad, constraints, initial states and transitions depend only on inputs and latches |
| Circuit.InvariantImpliesSafe | PDR.hpp:20-21 | blocked cubes that exclude bad, contain the initial states and are closed under steps leave no counterexample of any length |
| Encoding.ConeSound | PDR.cpp:598-629 | every variable of the cone has its circuit value in every model of the loaded gate clauses |
| Encoding.EncodeCone | PDR.cpp:553-569 | the loop over the gates from last to first loads a set of clauses that is exact for the cone of the roots |
| Encoding.EncodeInit | PDR.cpp:524-551 | models are exactly the initial states: reset literals, constraints, gate values |
| StepEncoding.PrimeInjective | PDR.cpp:221-251 | different variables have different primes, all above the unprimed ones |
| StepEncoding.Encoder.constructor | PDR.cpp:221-226 | primes of inputs and latches lie at a fixed distance; the invariant of the allocation holds |
| StepEncoding.Encoder.Allocate | PDR.cpp:221-243 | a prime is allocated once and never changes; the numbering stays injective |
| StepEncoding.Encoder.EncodeCones | PDR.cpp:593-644 | one pass loads both cones, each closed under fan-in, with primes allocated on the way |
| StepEncoding.LinksFollow | PDR.cpp:611-617 | the two clauses per latch say that the primed latches are the next-state values |
| StepEncoding.AssembledSound | PDR.cpp:576-644 | every model describes a transition from a state that is not bad, with correct primed bad and constraints |
| StepEncoding.AssembledComplete | PDR.cpp:576-644 | every such transition extends to a model over gates and primed gates |
| StepEncoding.SimplifiedEncodes | PDR.cpp:645-656 | preprocessing with the frozen variables keeps the formula exact |
| StepEncoding.Encoder.EncodeStep | PDR.cpp:576-740 | the formula, projected to inputs, latches and their primes, is exactly the set of steps (with or without constraints) |
| Activation.AddClause | sat_solver.hpp:41-53 | the number of variables is the largest variable added so far |
| Activation.Query | PDR.cpp:476-505 | the activation variable is fresh and the verdict is that of the permanent clauses with only the current temporary clause |
| Activation.PlainQuery | PDR.cpp:913-918 | temporary clauses that were never retired do not change the verdict of a query without one |
| Activation.ClearAct | sat_solver.hpp:69-78 | with the flag set, the last activation variable is retired and nothing else changes |
| Activation.KernelAndQuery | PDR.cpp:478-482 | a model with the activation literal true satisfies the permanent clauses and the temporary one |
| Activation.QueryModel | sat_solver.hpp:21-22 | a model of the permanent clauses extends to the loaded ones with all older activation literals false, so their clauses are inert |
| FrameSolver.KernelSound | PDR.cpp:417-427 | a model of a frame solver is a step out of a state of the frame |
| FrameSolver.KernelComplete | PDR.cpp:417-427 | every step out of a state of the frame is such a model |
| FrameSolver.CheckInductive | PDR.cpp:476-522 | either a step from outside the cube into it, or a core of the cube no such step enters |
| FrameSolver.AddLemma | PDR.cpp:429-459 | adding the negated cube blocks exactly that cube in the frame |
| FrameSolver.CheckBadSuccessor | PDR.cpp:913-920 | finds a step from the frame into bad, or proves there is none |
| FrameSolver.CheckInit | PDR.cpp:461-471 | true exactly if the cube contains an initial state |
| FrameSolver.LiftUnsat | PDR.cpp:746-826 | the lifting query with the whole predecessor assumed is never satisfiable |
| FrameSolver.LiftedFromUnsat | PDR.cpp:820-865 | the failed latches form a cube all of whose states, under the recorded inputs, are bad or step into the target |
| FrameSolver.Lift | PDR.cpp:746-910 | the lifted cube is part of the predecessor and has this guarantee for the recorded inputs of the step found; only the last temporary clause is retired |
| FrameSolver.LiftCanReturn | PDR.cpp:820-865 | every part of a predecessor with the guarantee is a correct answer to the lifting query |
| Ic3.AddCubeSound | PDR.cpp:429-459 | blocking a cube that misses the initial states and is inductive relative to frame k-1 in frames 1..k keeps the frame invariant |
| Ic3.NewFrameSound | PDR.cpp:417-427 | opening a frame keeps the invariant once the deepest frame has no bad successor |
| Ic3.FramesGrow | PDR.hpp:20-21 | every state of a frame, the initial ones included, is in all later frames |
| Ic3.StepIntoNext | PDR.hpp:20-21 | every step out of a frame lands in the next one |
| Ic3.ReturnedIsLegal | PDR.cpp:783-800 | in a shielded circuit every state of a returned cube meets the constraints and is bad or steps into the target |
| Ic3.LiftingIsLegalIff | PDR.cpp:662-742 | every cube lifting can return is legal if and only if the circuit is shielded |
| Ic3.BadMeetsConstraints | PDR.cpp:688-689 | circuits without constraints, or whose bad states meet them, are shielded |
| Ic3.InputConstraints | PDR.cpp:688-689 | circuits whose constraints read only inputs are shielded |
| Ic3.BadUnderStepInputs | PDR.cpp:688-689 | it is enough that bad implies the constraints under the inputs of each step |
| Ic3.LiftedStep | PDR.cpp:783-800 | from each state of a legal cube, with the recorded inputs, bad holds or a step hits the target |
| Ic3.LiftedMissesInit | PDR.cpp:510-519 | a lifted predecessor of something frame i misses contains no initial state, so the fallback to the whole cube blocks none |
| Ic3.LiftedExcluded | PDR.cpp:943-1051 | a lifted predecessor of something frame i misses has itself no predecessor in frame i-1 |
| Ic3.EmptyFrameInvariant | PDR.cpp:1095-1111 | when the list of frame i is empty, the cubes of frames i+1 and later are an inductive invariant that excludes bad |
| Witness.ChainReachesBad | PDR.cpp:1030-1049 | replaying the recorded inputs along the chain reaches bad from every state of the first cube |
| Witness.ChainWitness | PDR.cpp:96-133 | an initial state followed by the inputs of a chain is a counterexample |
| Pdr.Engine.constructor | PDR.cpp:406-427 | two frames, the first being the initial states; the engine invariant holds |
| Pdr.Engine.IsInductive | PDR.cpp:476-522 | a negative answer gives a predecessor in the frame, a positive one blocks the cube; the core is part of the cube, inductive, and replaced by the cube exactly if it meets the initial states |
| Pdr.Engine.AddCube | PDR.cpp:429-459 | the frames become those with the cube blocked up to its level, also when only one solver gets the clause |
| Pdr.Engine.UpdateSolvers | PDR.cpp:446-454 | after the loop the solvers of all frames up to the level block the cube, also when only the last one gets the clause |
| Pdr.Engine.Mic | PDR.cpp:1156-1199 | the result is part of the cube, misses the initial states and is inductive relative to the frame, for the aliased call on the core too; unless too many attempts in a row failed, for each literal left some larger cube without it met the initial states or was not inductive |
| Pdr.Engine.CtgDown | PDR.cpp:1201-1275 | terminates; succeeds if the cube is inductive already, and at the depth limit exactly then; otherwise fails only if a part of the cube meets the initial states, a required literal would go, or the joins are used up |
| Pdr.JoinShrinks | PDR.cpp:1248-1262 | each join with a counterexample to induction makes the cube strictly smaller, which with the number of tries left is the measure |
| Pdr.Engine.PushForward | PDR.cpp:984-990 | the cube is inductive relative to the frame before the level reached, and not relative to that frame |
| Pdr.Engine.BlockCtg | PDR.cpp:1228-1246 | part of the counterexample to generalisation is recorded at the first level relative to which it was not inductive; frames only get stronger |
| Pdr.Engine.ExtractState | PDR.cpp:746-910 | a predecessor cube with the lifting guarantee for the recorded inputs |
| Pdr.Engine.First | PDR.cpp:949-950 | the obligation taken is minimal in level, then in depth |
| Pdr.Engine.Discard | PDR.cpp:1012-1026 | every mark of a failed state exceeds the depth, so an obligation whose level plus depth equals the depth is never discarded by a mark |
| Pdr.Engine.BlockObligation | PDR.cpp:958-1010 | part of the core is recorded at the first level relative to which it was not inductive, so the cube is excluded from the next frame; within the depth the obligation is queued there |
| Pdr.Engine.PushAndRequeue | PDR.cpp:984-1010 | with proof obligation propagation the obligation is queued again exactly if some recorded cube of that frame has no other variables |
| Pdr.Engine.PushPredecessor | PDR.cpp:1047-1050 | exactly one obligation is added, one frame down and one step further, for a fresh lifted predecessor with its inputs; it keeps the queue invariant and holds a state that is still left |
| Pdr.Engine.Descend | PDR.cpp:1012-1050 | an obligation with a predecessor is given up exactly under the two conditions on its marks, which pass to its successor; otherwise it is reported as a real counterexample exactly at level 0 and continued one frame down above |
| Pdr.Engine.Treat | PDR.cpp:945-1053 | no other obligation is lost, one at the current depth stays until it is blocked, and the measure of the search falls unless a counterexample is found |
| Obligations.BlockFalls | PDR.cpp:958-1010 | blocking an obligation that leaves or moves up removes a state from some frame or lowers the weight of the queue |
| Obligations.DiscardFalls | PDR.cpp:1012-1026 | giving up an obligation and marking its successor lowers the weight of the queue |
| Obligations.LowerFalls | PDR.cpp:1047-1050 | so does queueing a predecessor that holds a state still left |
| Pdr.Engine.RecBlock | PDR.cpp:943-1054 | when the queue empties the root cube is excluded from the deepest frame and a state is gone; a counterexample is a real witness; it stops undecided only within a bound on the number of steps given by the states left and the number of frames |
| Pdr.Engine.GetPreOfBad | PDR.cpp:913-941 | a fresh root obligation that holds a state of the deepest frame with a bad successor, or proof there is none |
| Pdr.Engine.PropagateFrame | PDR.cpp:1072-1094 | each cube that stays was not inductive relative to the frame, each that goes leaves a part in the next list, no other list changes |
| Pdr.Engine.Propagate | PDR.cpp:1056-1154 | a frame found empty yields an inductive invariant that excludes bad; otherwise every list from the start frame that the shortcuts choose keeps a cube, none of them inductive relative to its frame |
| Pdr.Engine.NewFrame | PDR.cpp:417-427 | the frames become the old ones and an empty one |
| Certificate.CubeGate | PDR.cpp:1117-1135 | fresh gates, reading only smaller variables, compute the conjunction of the cube |
| Certificate.InvariantGate | PDR.cpp:1116-1146 | the last gate is true exactly where no cube, bad state or violated constraint holds |
| Certificate.BuildCertificate | PDR.cpp:1097-1147 | the new bad literal is exactly the negated invariant, and the certificate circuit has an inductive property that implies safety |
| Check.CheckInitialBad | PDR.cpp:1288-1316 | finds a bad initial state or proves there is none |
| Check.Check | PDR.cpp:1370-1507 | for shielded circuits unsafe comes with a replayable witness, safe with a certificate and proof that no counterexample exists; undecided only after fewer rounds than a bound for the depth reached, every depth below having been passed by a propagation without empty list |
| Check.Block | PDR.cpp:1459-1479 | afterwards the cube of the counterexample to induction is excluded from the deepest frame and a state is gone, within the bound on the number of steps |
| Check.QuietPassBounded | PDR.cpp:1056-1154 | a propagation from the bottom that fails and blocks no further state happens only at depths up to the number of latch valuations |
| ConstraintGap.ExampleUnsafe | PDR.cpp:1288-1368 | a circuit with a counterexample of three states that passes both initial checks |
| ConstraintGap.ExampleLift | PDR.cpp:510-519 | on it the empty cube, which contains the initial state, can be returned for a predecessor of bad |
| ConstraintGap.ExampleNotShielded | PDR.cpp:688-689 | that cube is not legal, so the circuit is not shielded |
| ConstraintGap.ExampleWrongVerdict | PDR.cpp:1095-1111 | blocking it leaves a frame without bad successor and with an empty list, from which safe is concluded, although the circuit is unsafe |
| Unroll.AigAndSound | BMC.cpp:101-166 | the recursive two-level simplification returns a literal equal to the conjunction, or asks for a gate |
| Unroll.AigAndZero | BMC.cpp:101-166 | a gate is asked for only if the operands differ, are not opposite or constant, no fan-in rule applies, and what they reduce to needs a gate as well |
| Unroll.ThroughSound | BMC.cpp:108-160 | each rewrite through the fan-in of one operand is right and recurses on smaller variables |
| Unroll.RunFollows | BMC.cpp:224-242 | the described run starts in the reset state and follows the next-state functions |
| Unroll.DescribeSame | BMC.cpp:244-293 | every trace of the circuit is the run of some valuation of the unrolled inputs and free initial latches |
| Bmc.FindGate | BMC.cpp:191-207 | the hash chain contains the operand pair exactly if a scan of all gates would find it |
| Bmc.Strash | BMC.cpp:186-222 | the literal returned means the conjunction and is the output of a gate with these operands, built exactly if there was none |
| Bmc.Unroller.constructor | BMC.cpp:244-293 | latches are constants or free nodes according to the reset values |
| Bmc.Unroller.AddInputs | BMC.cpp:168-180 | one fresh node per input; inputs and latches represent the state at this step |
| Bmc.Unroller.UnfoldGate | BMC.cpp:181-222 | the unfolded literal of the gate has its value at this step; it is the simplified literal if there is one, else the gate with these operands |
| Bmc.Unroller.UpdateLatches | BMC.cpp:232-242 | all latches change at once |
| Bmc.Unroller.Unfold | BMC.cpp:168-242 | after any number of frames every value equals the circuit node at that step for every input sequence |
| Bmc.LoadCone | BMC.cpp:348-389 | the loaded gates are closed under fan-in after every frame, nothing loaded is lost, and nothing is loaded that is neither a root nor a fan-in of a gate loaded now |
| Bmc.LoadedSound | BMC.cpp:370-388 | in every model each loaded gate has the value it has in the unrolled circuit |
| Bmc.CleanBadIsCounterexample | BMC.cpp:403-413 | a valuation that meets all constraints and reaches bad in the last frame is a counterexample |
| Bmc.CounterexampleIsClean | BMC.cpp:391-409 | a counterexample without earlier bad state satisfies all units added for former frames, solved or skipped |
| Bmc.SolveFrame | BMC.cpp:348-417 | a satisfiable frame shows a real trace to bad; an unsatisfiable one proves that no shortest counterexample has this length; an interrupted one answers nothing |
| Bmc.CheckFrames | BMC.cpp:295-345 | any answer is a real counterexample with its printed values; the thread with index k mod T finds a shortest one of length k unless it stops before: when another thread has answered, its solver was interrupted, or at the first completed frame whose unrolled bad literal exceeds the node limit, which is bounded by what the frames can build |
| Trail.ReasonForces | cadical/src/propagate.cpp:30-90 | a reason clause whose other literals are false makes its literal true in every model |
| Search.Cdcl.Decide | cadical/src/propagate.cpp:110-117 | opening a level keeps the trail invariant: reasons, root literals implied, decisions first of their level |
| Search.Cdcl.Assign | cadical/src/propagate.cpp:30-90 | a forced literal gets the highest level of its reason; on level 0 it follows from the clauses alone |
| Search.Cdcl.Backtrack | cadical/src/backtrack.cpp:72-123 | exactly the literals above the level go; out-of-order ones below stay in order and the trail stays sound |
| Search.ConflictLevel | cadical/src/analyze.cpp:413-482 | the highest level of the conflict, and its literal exactly if only one has that level |
| Search.Cdcl.Derive | cadical/src/analyze.cpp:693-740 | the learned clause is the minimised first-UIP clause of the conflict |
| Search.Cdcl.AnalyzeConflict | cadical/src/analyze.cpp:607-783 | the original formula is refuted exactly if the conflict level is the root; a single literal of the highest level is flipped by the conflict clause one level below; otherwise the minimised first-UIP clause, which follows from the original formula, is learned and assigns its flipped literal at the jump level or the chosen one, everything above being undone |
| Search.Cdcl.Learn | cadical/src/analyze.cpp:666-783 | the minimised first-UIP clause is added, and assigns its flipped literal after backtracking to the jump level or the chosen one |
| Search.Cdcl.JumpLevel | cadical/src/analyze.cpp:364-403 | the jump level is the highest level among the other literals of the learned clause, 0 if there is none |
| Analyze.Analyzer.AnalyzeLiteral | cadical/src/analyze.cpp:225-244 | the literal joins the clause, is counted open, or is dropped as fixed; open stays the number of unresolved seen literals of the level |
| Analyze.Analyzer.AnalyzeReason | cadical/src/analyze.cpp:246-254 | the resolvent with the antecedent is again implied |
| Analyze.Analyzer.NextUip | cadical/src/analyze.cpp:704-710 | the next open literal on the trail, which therefore is the last assigned one |
| Analyze.Analyzer.FirstUip | cadical/src/analyze.cpp:693-716 | the literal is the first one, going back along the trail, that is the only one left of its level, and the clause is exactly its negation with the negations of everything reached on lower levels; it is implied and false on the trail |
| Analyze.HasReason | cadical/src/analyze.cpp:711-713 | while another literal of the level is open the current one has a reason |
| Minimize.Minimizer.MinimizeLiteral | cadical/src/minimize.cpp:17-41 | a literal that is not fixed, kept, poisoned or cut off by the early aborts is reported removable exactly if all other literals of its reason are fixed, kept or removable; then it follows from the formula and the kept literals |
| Minimize.Minimizer.MinimizeClause | cadical/src/minimize.cpp:65-91 | sorted by trail position and compacted, the clause is still implied and asserting; each literal that stays is cut off or has a reason literal that is neither fixed nor stays; all flags are clear again |
| Minimize.Minimizer.ClearMinimized | cadical/src/minimize.cpp:93-102 | resetting the recorded literals resets all flags |
| FailedAssumptions.FindFailed | cadical/src/assume.cpp:43-71 | root-falsified before clashing before the false assumption of lowest level |
| FailedAssumptions.ClosedHolds | cadical/src/assume.cpp:132-155 | along the trail everything reached follows from the decisions reached |
| FailedAssumptions.CollectFailed | cadical/src/assume.cpp:129-157 | the breadth-first search finds exactly the decisions to which its start leads back through reasons, and they imply it; the clause is their negation |
| FailedAssumptions.Failing | cadical/src/assume.cpp:25-158 | the failed literals are exactly the false assumption alone, the clashing pair, or the false one with the decisions behind its negation; they are assumptions and contradict the clauses |
| FailedAssumptions.FailingConstraint | cadical/src/assume.cpp:118-157 | exactly the decisions behind the negated literals of a false constraint are collected, and they contradict clauses and constraint |
| Search.Cdcl.FailedCore | cadical/src/assume.cpp:25-158 | the failed assumptions are a core of the original formula, through learning and backtracking, and exactly those of the case found |
| Extension.PushEntry | cadical/src/extend.cpp:38-92 | the flat stack holds witness and clause between zeros |
| Extension.Extend | cadical/src/extend.cpp:94-157 | the backward walk over the flat stack undoes the entries from last to first |
| Extension.HistoryRecovers | cadical/src/extend.cpp:121-151 | for any sequence of simplifications, each recovered by what it pushed, the whole stack recovers the first formula |
| Extension.UniformReconstruct | cadical/src/extend.cpp:121-151 | entries with one witness literal make it true exactly if one of their clauses is false |
| Elim.ResolveClauses | cadical/src/elim.cpp:232-410 | each outcome tells exactly how the live literals of the antecedents relate: a satisfied antecedent, a clash, empty, unit, equality, strict inclusion, or else a resolvent without clash or inclusion, the last four of at least two literals |
| Elim.OutcomeImplied | cadical/src/elim.cpp:232-410 | what is derived holds whenever one antecedent is true without help of the pivot |
| Elim.OutcomeHandles | cadical/src/elim.cpp:232-410 | afterwards one antecedent is true without help of the pivot |
| Elim.AddResolvents | cadical/src/elim.cpp:444-487 | all required pairs are handled, garbage clauses redundant, everything derived follows from the required resolvents and is free of the pivot, and no unit or empty clause is left among the clauses |
| Elim.AfterIsSource | cadical/src/elim.cpp:444-487 | the reduced formula has exactly the models of the other clauses, the units and all required resolvents |
| Elim.PushClauses | cadical/src/elim.cpp:489-536 | some pushed entry is false exactly if a remaining clause (with a gate, a gate clause) is |
| Elim.PivotFixed | cadical/src/elim.cpp:489-536 | undoing the pushed clauses satisfies all pivot clauses exactly if the value they choose is right for the rests |
| Elim.RecoversIff | cadical/src/elim.cpp:489-536 | the pushed entries recover the old formula if and only if the pivot survives: for every model of the required resolvents the pushed clauses choose a right value |
| Elim.Eliminate | cadical/src/elim.cpp:444-536 | the reduced formula has exactly the models of the required resolvents, follows from the old one, and is recovered by the pushed entries if and only if the pivot survives |
| Elim.GateSurvives | cadical/src/elim.cpp:444-536 | with a gate that defines the pivot it survives |
| Elim.PlainSurvives | cadical/src/elim.cpp:444-536 | without a gate it always does |
| Elim.ReversibleIff | cadical/src/elim.cpp:444-536 | a substitution can be undone whatever the other clauses are if and only if the gate defines the pivot |
| Gates.SecondLiteral | cadical/src/gates.cpp:21-47 | the only other literal of a clause that is binary under the root assignment; zero exactly if there is none |
| Gates.MarkBinary | cadical/src/gates.cpp:54-87 | exactly the other literals of binary clauses are marked; the literal is reported as a unit exactly if two of them are complementary, and then follows |
| Gates.EquivalenceDefines | cadical/src/gates.cpp:103-164 | the two binary clauses define the pivot |
| Gates.FindEquivalence | cadical/src/gates.cpp:103-164 | a unit reported is implied, a gate reported defines the pivot and has no satisfied clause, complementary binary clauses always give the pivot as a unit, and nothing is reported only if no literal is a partner of the pivot |
| Gates.AndDefines | cadical/src/gates.cpp:170-268 | a base clause with a binary clause for each of its live literals defines the pivot |
| Gates.FindAndGate | cadical/src/gates.cpp:170-268 | a unit reported is implied, a gate reported defines the pivot and has no satisfied clause, and nothing is reported only if there is no base clause |
| MatchedGates.IsClause | cadical/src/gates.cpp:293-305 | true exactly if the unassigned literals of the clause are the given ones |
| MatchedGates.FindClause | cadical/src/gates.cpp:405-417 | finds a clause with exactly these unassigned literals or shows there is none |
| MatchedGates.IteDefines | cadical/src/gates.cpp:318-371 | the four matched clauses define the pivot if and only if none is root-level satisfied |
| MatchedGates.FindIfThenElse | cadical/src/gates.cpp:318-371 | four clauses reported define the pivot exactly under that condition; none are reported exactly if no pair has a gate with the condition where the search looks |
| MatchedGates.ExampleMissed | cadical/src/gates.cpp:318-371 | four clauses that form an if-then-else and are not found because of their order of literals |
| XorGates.NextEven | cadical/src/gates.cpp:446-449 | the next sign pattern of even parity, none in between |
| XorGates.AllPatterns | cadical/src/gates.cpp:443-464 | after half of the patterns minus one all even ones of the arity are covered |
| XorGates.ParityFlips | cadical/src/gates.cpp:443-459 | changing one literal changes the parity of the falsified pattern |
| XorGates.XorDefines | cadical/src/gates.cpp:419-499 | one clause for every pattern of even parity defines the pivot if and only if none is root-level satisfied |
| XorGates.FindXor | cadical/src/gates.cpp:419-499 | clauses reported define the pivot exactly under that condition; none are reported only if every candidate within the arity limit misses a pattern |
| Substitution.FindGateClauses | cadical/src/gates.cpp:508-522 | whichever kind is found first defines the pivot exactly if no gate clause is satisfied, which always holds for equivalences and AND gates of both phases; none is reported only if all searches find none |
| Substitution.ReversibleIffClean | cadical/src/gates.cpp:508-522 | the substitution of a reported gate can be undone whatever the other clauses are if and only if none of its clauses is root-level satisfied |
| Substitution.TryToEliminate | cadical/src/elim.cpp:543-592 | the pivot is eliminated exactly if the resolvents are bounded and no unit was found: the new formula has exactly the models of the required resolvents, is free of the pivot, and the entries recover the old one if and only if the pivot survives, so always if no gate clause is satisfied; otherwise only a unit found is added |
| EliminationRound.Round | cadical/src/elim.cpp:613-785 | a run with one attempt for each pivot that is unassigned when its turn comes, each on what the one before left; the last formula follows from the first, and the whole stack recovers it when every gate was clean, that is when every substitution of the run can be undone whatever the other clauses are |
| EliminationRound.ExampleMatches | cadical/src/gates.cpp:379-403 | a match of an if-then-else with a clause that is satisfied by a unit |
| EliminationRound.ExampleLoses | cadical/src/elim.cpp:221-230 | with it the pivot does not survive: a model of unit and resolvents satisfies the clauses for neither value of the pivot |
| BlockedClauses.ScanLiterals | cadical/src/block.cpp:81-117 | finds a clashing literal exactly if there is one; it moves to the front, otherwise the order is restored |
| BlockedClauses.IsBlockedClause | cadical/src/block.cpp:39-143 | true exactly if every resolvent is tautological; list and clauses are only reordered, and restored when the answer is true |
| BlockedClauses.BlockedRecovers | cadical/src/block.cpp:554-563 | removing a blocked clause is undone by its entry |
| BlockedClauses.BlockPureLiteral | cadical/src/block.cpp:227-264 | all clauses of a pure literal go and are recovered |
| BlockedClauses.BlockCandidates | cadical/src/block.cpp:387-435 | exactly the clauses of the right size with a literal negated in some clause of the other phase; no blocked one is filtered out |
| BlockedClauses.BlockImpossible | cadical/src/block.cpp:441-478 | reported exactly if some clause of the other phase has no literal negated in the candidates, and then none of them is blocked |
| BlockedClauses.BlockWithNegatives | cadical/src/block.cpp:482-577 | unless a clause of the other phase is too large, exactly the blocked clauses of the right size are removed, and they are recovered |
| BlockedClauses.BlockWithOneNegative | cadical/src/block.cpp:270-380 | the same for a single clause of the other phase, with the candidates reordered in place |
| Graph.MutualEqual | cadical/src/decompose.cpp:5-9 | mutually reachable literals are equal in every model |
| Graph.ReachMirror | cadical/src/decompose.cpp:72-75 | reachability is skew-symmetric |
| Graph.ComplementSpreads | cadical/src/decompose.cpp:120-123 | a component with complementary literals contains the negation of each member |
| Dfs.VisitKeeps | cadical/src/decompose.cpp:160-180 | numbering a node keeps the search invariant |
| Dfs.FinishKeeps | cadical/src/decompose.cpp:151-158 | so does finishing a node that is not an entry |
| Dfs.RelowKeeps | cadical/src/decompose.cpp:84-99 | so does meeting a finished node again further down the working stack |
| Dfs.CloseKeeps | cadical/src/decompose.cpp:126-146 | so does closing a component |
| Dfs.VisitWork | cadical/src/decompose.cpp:166-177 | unvisited successors wait above their node although nodes may be pushed several times |
| Dfs.SegmentIsComponent | cadical/src/decompose.cpp:104-118 | the stack segment above an entry is exactly its strongly connected component |
| Tarjan.ScanComponent | cadical/src/decompose.cpp:106-124 | finds the negation of the entry in the segment, or the literal of smallest index |
| Tarjan.Search.PreFix | cadical/src/decompose.cpp:160-180 | one more node is visited and the invariant kept |
| Tarjan.Search.PostFix | cadical/src/decompose.cpp:80-157 | the low value is updated or the component closed, and the invariant kept |
| Tarjan.Search.CloseComponent | cadical/src/decompose.cpp:104-146 | each member gets its representative, or the graph is contradictory |
| Tarjan.Search.PopComponent | cadical/src/decompose.cpp:126-146 | the members leave both stacks with the smallest literal, or themselves if frozen, as representative |
| Tarjan.Search.SearchFrom | cadical/src/decompose.cpp:53-184 | terminates with the root completely traversed |
| Tarjan.Search.Components | cadical/src/decompose.cpp:53-184 | unsatisfiability is reported if and only if some literal and its negation are mutually reachable; otherwise representatives are smallest in their component |
| Decompose.TableSubstitution | cadical/src/decompose.cpp:126-146 | representatives respect negation and are their own representatives, frozen literals included |
| Decompose.ReprEqual | cadical/src/decompose.cpp:126-146 | a literal equals its representative in every model |
| Decompose.SubstituteClause | cadical/src/decompose.cpp:224-247 | the rewritten clause means the old one for representatives, without duplicates, or the old one is satisfied |
| Decompose.SubstituteClauses | cadical/src/decompose.cpp:204-297 | clauses and new units are equivalent to the old clauses; only representatives are left; units are assigned and an empty clause refutes, so neither is left among the clauses |
| Decompose.EntriesCopy | cadical/src/decompose.cpp:330-340 | the two binary clauses per variable copy the value of its representative |
| Decompose.GraphOfOk | cadical/src/decompose.cpp:72-97 | the graph of the binary clauses is skew-symmetric and its edges are implications |
| Decompose.DecomposeRound | cadical/src/decompose.cpp:24-353 | the rewritten formula follows from the original, holds only literals that are their own representatives, and no unit, empty, repetitive or contradictory rest; the pushed clauses turn each of its models into one of the original |
| Watches.FineMeans | cadical/src/checker.cpp:364-413 | a clause whose false watches are excused is satisfied or has two unassigned literals |
| Watches.MoveWatchOk | cadical/src/checker.cpp:394-404 | moving a watch keeps every live clause in the lists of its first two literals, once each |
| Watches.AddedOk | cadical/src/checker.cpp:37-68 | storing a clause keeps the lists in order |
| Watches.CollectedOk | cadical/src/checker.cpp:141-158 | so does removing the watches of garbage clauses |
| LitOrder.Normalize | cadical/src/checker.cpp:252-267 | reports a clause exactly if it is tautological or satisfied; otherwise strictly sorted, same literals |
| LitOrder.StrictUnique | cadical/src/checker.cpp:284-293 | a set of literals has one sorted list, so its hash does not depend on the stored order |
| ClauseTable.FindClause | cadical/src/checker.cpp:295-314 | finds a live clause with exactly these literals or shows that none has this hash |
| ClauseTable.Enlarge | cadical/src/checker.cpp:82-101 | the doubled table holds the same clauses in their new chains |
| Checker.Checker.VisitWatch | cadical/src/checker.cpp:374-408 | each way of treating a watch keeps the invariant; a conflict refutes originals and assumptions, garbage binary clauses included |
| Checker.Checker.VisitList | cadical/src/checker.cpp:370-411 | after the list of a false literal every live clause is fine for it, through moves and new assignments |
| Checker.Checker.Propagate | cadical/src/checker.cpp:364-413 | terminates; on success no live clause is false or unit, on failure the original clauses refute the assumptions |
| Checker.Checker.Quiescent | cadical/src/checker.cpp:364-413 | between two steps every live clause is satisfied or has two unassigned literals |
| Checker.Checker.Backtrack | cadical/src/checker.cpp:342-357 | exactly the later assignments are undone |
| Checker.Checker.Check | cadical/src/checker.cpp:415-424 | a positive answer means the clause follows from the original ones; after a negative one unit propagation has a conflict-free result that falsifies the clause; the trail is as before and still fully propagated |
| Checker.Checker.AddClause | cadical/src/checker.cpp:428-457 | a clause that follows refutes the originals if all literals are false, has its only open literal assigned and propagated, or is stored; it is kept |
| Checker.Checker.AddOriginalClause | cadical/src/checker.cpp:459-472 | the original clauses and the kept clauses grow by this one, also if it is satisfied and not stored |
| Checker.Checker.AddDerivedClause | cadical/src/checker.cpp:474-496 | in every run an accepted derived clause is implied by the original clauses added so far and is kept; a rejected one has a conflict-free propagation of its negation and changes nothing |
| Checker.Checker.KeepsMeaning | cadical/src/checker.cpp:428-472 | trail and live clauses follow from the originals and imply every clause added and not deleted; while no original is deleted they are equivalent to the originals |
| Checker.Checker.DeleteClause | cadical/src/checker.cpp:498-531 | succeeds exactly if the clause is satisfied, tautological or live, so always for a kept clause; one addition is taken back, exactly one live clause goes, and on collection those with a true literal |
| Checker.Checker.CollectGarbage | cadical/src/checker.cpp:116-164 | exactly the clauses without true literal stay live, all others are freed, and nothing kept is lost |

## Left out

- Check.Check: requires a shielded circuit, because on others the verdict can be wrong (`ConstraintGap.ExampleWrongVerdict`). The depth reached is not bounded: with enough rounds every depth is passed or decided, but passes that start above the bottom frame or block further states are not limited in number.
- Bmc.CheckFrames: speaks about one thread; which of several threads reports first is not modelled, and when a solver is interrupted or another thread has answered is a parameter.
- MatchedGates.FindIfThenElse: that no gate is reported does not mean there is none (`MatchedGates.ExampleMissed`).
- EliminationRound.Round: the schedule and the flushing of occurrence lists are not modelled, pivots come in any order; a gate with a satisfied clause may or may not lose models, which `Elim.RecoversIff` decides for a single attempt.
- Gates.SecondLiteral: does not remove a clause it finds satisfied, so the gate searches of the model may see more satisfied clauses than those of the code.
- The arity limit of XOR gates is a parameter; which of several equal clauses is found is an arbitrary choice.
- Substitution.TryToEliminate: after a hyper-unary unit it stops with the unit added; propagating it (`elim_propagate`) and going on with the same pivot is a new attempt. Whether the number of resolvents is within its bound is a parameter; units found while counting are part of a new attempt too.
- Elim.ResolveClauses: strengthening an antecedent on the fly is kept as a derived clause beside it; subsumption by the new resolvents (`elim_backward_clauses`) is not modelled.
- Minimize.Minimizer.MinimizeClause: the counts used for early aborts are parameters.
- Search.Cdcl.AnalyzeConflict: the level chosen for chronological backtracking is a parameter between the jump level and the conflict level; shrinking, bumping, eager subsumption and moving of watches in the conflict clause are not modelled.
- Search.Cdcl.Assign: propagation itself (`cadical/src/propagate.cpp:143-343`) is not modelled; every sequence of assignments it could make is covered.
- Decompose.DecomposeRound: clauses are rewritten as values; shrinking in place, watches, proof output and the propagation of new units afterwards are not modelled.
- Checker.Checker.DeleteClause: whether to collect garbage is a parameter; on an empty hash table the reduction of the hash in the code does not terminate, and the model answers that nothing was found.
- The hash function of the proof checker and its reduction to the table size are parameters.
- Incremental solvers of the engines are values handed from call to call, so aliasing of solver objects is not captured.
- Literal scores, sorting and shuffling of cubes and the counters behind `-uc` only steer the search and are arbitrary choices.
- Shared-cube queues and restarts of PDR are compiled out by constants and not modelled; threads and the lock on the result are outside the model.
- Reading AIGER files, printing of results, witnesses and certificates, the command line, and the call of `aigtoaig` are input and output.
- MiniSat's preprocessing, CaDiCaL's restarts, clause database reduction, restoring, subsumption, vivification, probing, covered clauses and globally blocked clauses are not part of this model.
- Justice and fairness properties are not supported by the code.
