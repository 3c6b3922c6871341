/** The IC3/PDR engine: frames with their solvers, generalisation with counterexamples to
    generalisation, blocking of proof obligations, propagation, and the main loop. */
module Pdr {
  import opened Cnf
  import opened Circuit
  import opened Encoding
  import opened StepEncoding
  import opened Activation
  import opened FrameSolver
  import opened Ic3
  import opened Witness
  import opened Obligations

  const CTG_TRIES := 3
  const CTG_MAX_DEPTH := 1
  const MAX_JOINS := 1048576

  datatype Frame = Frame(cubes: set<Cube>, solver: Solver)

  function Lists(frames: seq<Frame>): (r: seq<set<Cube>>)
    ensures |r| == |frames|
    ensures forall i :: 0 <= i < |frames| ==> r[i] == frames[i].cubes
  {
    seq(|frames|, i requires 0 <= i < |frames| => frames[i].cubes)
  }

  ghost predicate SolversOk(c: Aig, k: Codes, frames: seq<Frame>, fs: seq<set<Cube>>)
    requires WellFormed(c)
  {
    |frames| == |fs| && forall i :: 0 <= i < |fs| ==> FrameOk(c, k, i == 0, fs[i], frames[i].solver)
  }

  lemma SolverUpdate(c: Aig, k: Codes, frames: seq<Frame>, fs: seq<set<Cube>>, i: int, s: Solver)
    requires WellFormed(c) && SolversOk(c, k, frames, fs) && 0 <= i < |fs| && FrameOk(c, k, i == 0, fs[i], s)
    ensures SolversOk(c, k, frames[i := frames[i].(solver := s)], fs)
    ensures Lists(frames[i := frames[i].(solver := s)]) == Lists(frames)
  {
    hide FrameOk;
  }

  lemma CoreIsInductive(c: Aig, zero: bool, lemmas: set<Cube>, cube: Cube, core: Cube)
    requires WellFormed(c) && core <= cube && Blocked(c, zero, lemmas, cube, core)
    ensures Blocked(c, zero, lemmas, core, core) && Blocked(c, zero, lemmas, cube, cube)
  {
    hide InFrame, Step;
  }

  /** Part of `cube` is recorded in the list of frame `i`, the first one relative to which `cube` was not
      inductive any more. */
  ghost predicate PushedTo(c: Aig, before: seq<set<Cube>>, fs: seq<set<Cube>>, lists: seq<set<Cube>>, cube: Cube, i: int, q: Cube)
    requires WellFormed(c) && |before| == |fs| == |lists|
  {
    && 1 <= i < |fs| && q <= cube && q in lists[i] && (forall j :: 1 <= j <= i ==> q in fs[j])
    && (i <= Depth(fs) ==> !Blocked(c, false, before[i], cube, cube))
  }

  /** A cube recorded in the list has no more variables than `cube`. */
  ghost predicate Subsumed(lists: seq<set<Cube>>, i: int, cube: Cube)
    requires 0 <= i < |lists|
  {
    exists r :: r in lists[i] && Vars(r) <= Vars(cube)
  }

  /** The generalised cube `q` went to frame `i`, the first one relative to which it was not inductive;
      within the depth the obligation is queued there, always or if some recorded cube asks for it. */
  ghost predicate Requeue(c: Aig, before: seq<set<Cube>>, fs: seq<set<Cube>>, lists: seq<set<Cube>>, queue: set<Obligation>, queue': set<Obligation>, o: Obligation, i: int, q: Cube, always: bool)
    requires WellFormed(c) && |before| == |fs| == |lists|
  {
    var again := Obligation(o.state, i, o.depth);
    && o.level < i < |fs| && q <= o.state.latches && PushedTo(c, before, fs, lists, q, i, q)
    && (queue' == queue || (i <= Depth(fs) && queue' == queue + {again}))
    && (always && i <= Depth(fs) ==> queue' == queue + {again})
  }

  ghost predicate Requeued(c: Aig, before: seq<set<Cube>>, fs: seq<set<Cube>>, lists: seq<set<Cube>>, core: Cube, queue: set<Obligation>, queue': set<Obligation>, o: Obligation, always: bool)
    requires WellFormed(c) && |before| == |fs| == |lists|
  {
    exists i, q :: Requeue(c, before, fs, lists, queue, queue', o, i, q, always) && q <= core
  }

  lemma RequeueEarlier(c: Aig, first: seq<set<Cube>>, before: seq<set<Cube>>, fs: seq<set<Cube>>, lists: seq<set<Cube>>, queue: set<Obligation>, queue': set<Obligation>, o: Obligation, i: int, q: Cube, always: bool)
    requires WellFormed(c) && |before| == |fs| == |lists| && Stronger(first, before)
    requires Requeue(c, before, fs, lists, queue, queue', o, i, q, always)
    ensures Requeue(c, first, fs, lists, queue, queue', o, i, q, always)
  {
    hide Blocked;
    if i <= Depth(fs) && Blocked(c, false, first[i], q, q) {
      StrongerBlocked(c, first, before, i, q, q);
    }
  }

  /** Without the literal some cube between `r` and `cube` contains an initial state or is not inductive. */
  ghost predicate Tight(c: Aig, zero: bool, lemmas: set<Cube>, cube: Cube, r: Cube, l: int)
    requires WellFormed(c)
  {
    exists t :: r <= t <= cube && l in t && !Droppable(c, zero, lemmas, t - {l})
  }

  ghost predicate Droppable(c: Aig, zero: bool, lemmas: set<Cube>, cube: Cube)
    requires WellFormed(c)
  {
    !MeetsInit(c, cube) && Blocked(c, zero, lemmas, cube, cube)
  }

  datatype BlockResult = AllBlocked | Counterexample(start: set<int>, inputs: seq<set<int>>) | Stopped

  class Engine {
    const c: Aig
    const k: Codes
    const usePr: bool
    var frames: seq<Frame>
    ghost var fs: seq<set<Cube>>
    var lift: Solver
    var core: Cube
    var queue: set<Obligation>
    /** States allocated while blocking the current counterexample to induction. */
    ghost var arena: set<State>
    var topFrameCannotReachBad: bool
    var earliestStrengthened: int
    /** How often the shared verdict will still be read as undecided. */
    var polls: nat

    ghost predicate Valid()
      reads this
    {
      && WellFormed(c) && CodesOk(c, k)
      && LiftOk(k, lift)
      && |fs| == |frames| >= 3
      && SolversOk(c, k, frames, fs) && Sound(c, fs) && ListsOk(fs, Lists(frames))
      && 1 <= earliestStrengthened <= |frames| - 2
    }

    /** Frames 0, 1 and 2, once neither an initial state nor a first step is bad. */
    constructor (c: Aig, k: Codes, usePr: bool, polls: nat)
      requires WellFormed(c) && CodesOk(c, k)
      requires forall e :: Init(c, e) ==> !Bad(c, e)
      requires NoBadSuccessor(c, true, {})
      ensures Valid() && DepthOf() == 1 && this.c == c && this.polls == polls && topFrameCannotReachBad
    {
      hide CodesOk, FrameOk, NoBadSuccessor, Loaded, MeetsInit, Excludes;
      var s0 := NewFrameSolver(c, k, true);
      var s1 := NewFrameSolver(c, k, false);
      var s2 := NewFrameSolver(c, k, false);
      this.c := c;
      this.k := k;
      this.usePr := usePr;
      this.polls := polls;
      frames := [Frame({}, s0), Frame({}, s1), Frame({}, s2)];
      fs := [{}, {}, {}];
      lift := NewLiftSolver(c, k);
      core := {};
      queue := {};
      arena := {};
      topFrameCannotReachBad := true;
      earliestStrengthened := 1;
    }

    function DepthOf(): int
      reads this
    {
      |frames| - 2
    }

    method Poll() returns (stop: bool)
      modifies this`polls
      ensures !stop ==> old(polls) == polls + 1
      ensures stop ==> polls == old(polls) == 0
    {
      stop := polls == 0;
      if !stop {
        polls := polls - 1;
      }
    }

    /** Is the negation of `cube` inductive relative to frame `level`?  If asked for, `core`
        receives an inductive part of the cube that still misses the initial states. */
    method IsInductive(level: int, cube: Cube, genCore: bool) returns (res: bool, m: set<int>)
      requires Valid() && 0 <= level < |frames| && IsCube(c, cube)
      modifies this`frames, this`core
      ensures Valid() && Lists(frames) == old(Lists(frames))
      ensures !(res && genCore) ==> core == old(core)
      ensures !res ==> Reaches(c, level == 0, fs[level], cube, m)
      ensures res ==> Blocked(c, level == 0, fs[level], cube, cube)
      ensures res && genCore ==> core <= cube && IsCube(c, core) && Blocked(c, level == 0, fs[level], core, core)
      ensures res && genCore && !MeetsInit(c, cube) ==> !MeetsInit(c, core)
      ensures res && genCore && MeetsInit(c, core) ==> core == cube
    {
      hide CodesOk, FrameOk, Sound, ListsOk, LiftOk, Blocked, Reaches, MeetsInit;
      var t, o := CheckInductive(c, k, frames[level].solver, cube, level == 0, fs[level]);
      SolverUpdate(c, k, frames, fs, level, t);
      frames := frames[level := frames[level].(solver := t)];
      match o
      case Predecessor(w) =>
        res, m := false, w;
      case Inductive(part) =>
        res, m := true, {};
        CoreIsInductive(c, level == 0, fs[level], cube, part);
        if genCore {
          core := part;
          var b := CheckInit(c, k, core);
          if b {
            core := cube;
          }
        }
    }

    /** Blocks `q` in frames 1..level and records it in the list of frame `level`. */
    method AddCube(q: Cube, level: int, toAll: bool, propagating: bool)
      requires Valid() && 1 <= level < |frames|
      requires IsCube(c, q) && !MeetsInit(c, q) && Blocked(c, level == 1, fs[level - 1], q, q)
      requires !toAll ==> forall i :: 1 <= i < level ==> q in fs[i]
      modifies this`frames, this`fs, this`earliestStrengthened
      ensures Valid() && fs == AddUpTo(old(fs), q, level)
      ensures Lists(frames) == old(Lists(frames))[level := old(frames)[level].cubes + {q}]
      ensures earliestStrengthened == if !propagating && level < old(earliestStrengthened) then level else old(earliestStrengthened)
    {
      hide CodesOk, FrameOk, Sound, LiftOk, Blocked, MeetsInit, AddUpTo, Kept;
      if !propagating && level < earliestStrengthened {
        earliestStrengthened := level;
      }
      AddCubeSound(c, fs, q, level);
      ListsAfterAdd(c, fs, Lists(frames), q, level);
      if q in frames[level].cubes {
        AlreadyAdded(c, fs, q, level);
        assert frames[level].cubes + {q} == frames[level].cubes;
        assert Lists(frames) == Lists(frames)[level := frames[level].cubes + {q}];
      } else {
        var fr := UpdateSolvers(q, level, toAll);
        frames := fr[level := fr[level].(cubes := fr[level].cubes + {q})];
        fs := AddUpTo(fs, q, level);
        assert Lists(frames) == Lists(fr)[level := fr[level].cubes + {q}];
        ListsChange(c, k, fr, fs, frames);
      }
    }

    /** Blocks `q` in the solvers of frames 1..level, or of frame `level` alone. */
    method UpdateSolvers(q: Cube, level: int, toAll: bool) returns (fr: seq<Frame>)
      requires Valid() && 1 <= level < |frames| && IsCube(c, q)
      requires !toAll ==> forall i :: 1 <= i < level ==> q in fs[i]
      ensures |fr| == |fs| && SolversOk(c, k, fr, AddUpTo(fs, q, level)) && Lists(fr) == Lists(frames)
    {
      hide CodesOk, FrameOk, Sound, LiftOk, AddUpTo, IsCube, SolversOk, ListsOk, Lists, Added;
      fr := frames;
      var i := if toAll then 1 else level;
      AddedStart(fs, q, i, level, toAll);
      SolversLength(c, k, fr, fs);
      while i <= level
        invariant 1 <= i <= level + 1 && |fr| == |fs| && (!toAll ==> level <= i)
        invariant SolversOk(c, k, fr, Added(fs, q, i, level, toAll)) && Lists(fr) == Lists(frames)
        decreases level - i
      {
        ghost var gs := Added(fs, q, i, level, toAll);
        SolverAt(c, k, fr, gs, i);
        var t := AddLemma(c, k, fr[i].solver, q, i == 0, gs[i]);
        LemmaUpdate(c, k, fr, gs, i, t, gs[i] + {q});
        AddedStep(fs, q, i, level, toAll);
        fr := fr[i := fr[i].(solver := t)];
        i := i + 1;
      }
      AddedAll(fs, q, level, toAll);
    }

    /** Drops literals from a cube that is inductive relative to frame `level`.  With `aliased`
        the cube being shrunk is the member `core` itself. */
    method Mic(cube: Cube, level: int, recDepth: nat, aliased: bool) returns (r: Cube)
      requires Valid() && 0 <= level <= DepthOf() && 1 <= recDepth <= CTG_MAX_DEPTH + 1
      requires IsCube(c, cube) && !MeetsInit(c, cube) && Blocked(c, level == 0, fs[level], cube, cube)
      requires aliased ==> core == cube && recDepth > CTG_MAX_DEPTH
      modifies this`frames, this`fs, this`core, this`lift, this`earliestStrengthened
      ensures Valid() && Stronger(old(fs), fs) && |frames| == old(|frames|)
      ensures r <= cube && IsCube(c, r) && !MeetsInit(c, r) && Blocked(c, level == 0, fs[level], r, r)
      ensures aliased ==> core == r
      ensures TriedAll(c, level == 0, old(fs)[level], cube, r)
      decreases CTG_MAX_DEPTH + 2 - recDepth, 1
    {
      hide CodesOk, FrameOk, SolversOk, Sound, ListsOk, LiftOk, Blocked, MeetsInit, Droppable, Tried, TriedAll;
      r := cube;
      var required: set<int> := {};
      var todo := cube;
      var failures := 0;
      ghost var stuck, recent: set<int> := {}, {};
      NothingTried(c, level == 0, fs[level], cube);
      while todo != {}
        invariant Valid() && Stronger(old(fs), fs) && |frames| == old(|frames|)
        invariant todo <= cube && r <= cube && !MeetsInit(c, r) && Blocked(c, level == 0, fs[level], r, r)
        invariant aliased ==> core == r
        invariant Tried(c, level == 0, old(fs)[level], cube, r, todo, stuck, recent) && |recent| == failures
        decreases todo
      {
        var l := Pick(todo);
        ghost var todo0 := todo;
        todo := todo - {l};
        if l in r {
          ghost var before, r0 := fs, r;
          var ok, cand := CtgDown(r - {l}, level, recDepth, required);
          StrongerBlocked(c, before, fs, level, r, r);
          if ok {
            r := cand;
            Dropped(c, level == 0, old(fs)[level], cube, r0, r, todo0, l, stuck, recent);
            failures, recent := 0, {};
            if aliased {
              core := cand;
            }
          } else {
            Failed(c, old(fs), before, level, cube, r, todo0, l, stuck, recent);
            failures, stuck, recent := failures + 1, stuck + {l}, recent + {l};
            if failures > CTG_TRIES {
              break;
            }
            required := required + {l};
          }
        } else {
          Dropped(c, level == 0, old(fs)[level], cube, r, r, todo0, l, stuck, recent);
          failures, recent := 0, {};
        }
      }
      AllTried(c, level == 0, old(fs)[level], cube, r, todo, stuck, recent);
    }

    /** Tries to make `cube` inductive relative to frame `level`, blocking counterexamples to
        generalisation on the way or joining the cube with them. */
    method CtgDown(cube: Cube, level: int, recDepth: nat, required: set<int>) returns (ok: bool, r: Cube)
      requires Valid() && 0 <= level <= DepthOf() && 1 <= recDepth <= CTG_MAX_DEPTH + 1 && IsCube(c, cube)
      modifies this`frames, this`fs, this`core, this`lift, this`earliestStrengthened
      ensures Valid() && Stronger(old(fs), fs) && |frames| == old(|frames|)
      ensures ok ==> r <= cube && IsCube(c, r) && !MeetsInit(c, r) && Blocked(c, level == 0, fs[level], r, r)
      ensures !ok && recDepth > CTG_MAX_DEPTH ==> core == old(core)
      ensures Droppable(c, level == 0, old(fs)[level], cube) ==> ok
      ensures recDepth > CTG_MAX_DEPTH ==> fs == old(fs) && (ok <==> Droppable(c, level == 0, fs[level], cube))
      ensures !ok && recDepth <= CTG_MAX_DEPTH ==>
                r <= cube && (MeetsInit(c, r) || (exists l :: l in required && l in cube && l !in r) || |cube| - |r| >= MAX_JOINS)
      decreases CTG_MAX_DEPTH + 2 - recDepth, 0
    {
      hide CodesOk, FrameOk, SolversOk, Sound, ListsOk, LiftOk, Blocked, MeetsInit, Reaches, Lifted;
      r := cube;
      var tries, joins := 0, 0;
      while true
        invariant Valid() && Stronger(old(fs), fs) && |frames| == old(|frames|)
        invariant r <= cube && 0 <= tries <= CTG_TRIES
        invariant recDepth > CTG_MAX_DEPTH ==> core == old(core) && r == cube && fs == old(fs)
        invariant (r == cube && fs == old(fs)) || !Droppable(c, level == 0, old(fs)[level], cube)
        invariant 0 <= joins <= |cube| - |r|
        decreases |r|, CTG_TRIES - tries
      {
        var init := CheckInit(c, k, r);
        if init {
          return false, r;
        }
        var done, m := IsInductive(level, r, true);
        if done {
          if |core| < |r| {
            r := core;
          }
          return true, r;
        }
        ReachesUnblocked(c, level == 0, fs[level], r, m);
        if recDepth > CTG_MAX_DEPTH {
          return false, r;
        }
        assert Step(c, m, Unprime(c, m)) && AllHold(Unprime(c, m), r) by {
          ReachesParts(c, level == 0, fs[level], r, m);
        }
        var cti := ExtractState(level, m, ToCube(r));
        var blocked := false;
        if tries < CTG_TRIES && level > 1 {
          var meets := CheckInit(c, k, cti);
          if !meets {
            var unused;
            blocked, unused := IsInductive(level - 1, cti, true);
          }
        }
        if blocked {
          tries := tries + 1;
          BlockCtg(level, recDepth);
        } else if joins < MAX_JOINS {
          tries := 0;
          joins := joins + 1;
          var join := r * cti;
          if exists l :: l in r - cti && l in required {
            return false, join;
          }
          JoinShrinks(c, level == 0, fs[level], r, m, cti);
          r := join;
        } else {
          return false, r;
        }
      }
    }

    /** Follows `q` forward while it stays inductive; it may be blocked up to the returned frame. */
    method PushForward(q: Cube, from: int) returns (i: int)
      requires Valid() && 1 <= from <= DepthOf() + 1 && IsCube(c, q) && Blocked(c, from - 1 == 0, fs[from - 1], q, q)
      modifies this`frames, this`core
      ensures Valid() && Lists(frames) == old(Lists(frames)) && core == old(core)
      ensures from <= i <= DepthOf() + 1 && Blocked(c, i - 1 == 0, fs[i - 1], q, q)
      ensures i <= DepthOf() ==> !Blocked(c, false, fs[i], q, q)
    {
      hide CodesOk, FrameOk, SolversOk, Sound, ListsOk, LiftOk, Blocked, MeetsInit, Reaches;
      i := from;
      while i <= DepthOf()
        invariant from <= i <= DepthOf() + 1
        invariant Valid() && Lists(frames) == old(Lists(frames)) && core == old(core)
        invariant Blocked(c, i - 1 == 0, fs[i - 1], q, q)
        decreases DepthOf() + 1 - i
      {
        var ok, m := IsInductive(i, q, false);
        if !ok {
          ReachesUnblocked(c, i == 0, fs[i], q, m);
          break;
        }
        i := i + 1;
      }
    }

    /** Pushes the counterexample to generalisation in `core` as far as it stays inductive,
        generalises it in place, and blocks it. */
    method BlockCtg(level: int, recDepth: nat)
      requires Valid() && 1 < level <= DepthOf() && 1 <= recDepth <= CTG_MAX_DEPTH
      requires IsCube(c, core) && !MeetsInit(c, core) && Blocked(c, level - 1 == 0, fs[level - 1], core, core)
      modifies this`frames, this`fs, this`core, this`lift, this`earliestStrengthened
      ensures Valid() && Stronger(old(fs), fs) && |frames| == old(|frames|)
      ensures exists i, q :: level <= i <= DepthOf() + 1 && PushedTo(c, old(fs), fs, Lists(frames), old(core), i, q)
      decreases CTG_MAX_DEPTH + 1 - recDepth, 2
    {
      hide CodesOk, FrameOk, SolversOk, Sound, ListsOk, LiftOk, Blocked, MeetsInit;
      ghost var cube := core;
      var i := PushForward(core, level);
      ghost var before := fs;
      var ctg := Mic(core, i - 1, recDepth + 1, true);
      AddCube(ctg, i, true, false);
      assert Stronger(before, fs);
      assert ctg in Lists(frames)[i] && ctg in fs[level];
      assert PushedTo(c, before, fs, Lists(frames), cube, i, ctg);
    }

    /** The latch cube of a lifted predecessor found in `m`. */
    method ExtractState(ghost level: int, m: set<int>, g: Target) returns (q: Cube)
      requires Valid() && 0 <= level < |frames| && (g.ToCube? ==> IsCube(c, g.q))
      requires Step(c, m, Unprime(c, m)) && Hits(c, g, Unprime(c, m))
      modifies this`lift
      ensures Valid() && IsCube(c, q) && q <= StateLits(LatchVars(c), m)
      ensures Returned(c, q, m, Unprime(c, m), g)
    {
      hide FrameOk, SolversOk, Sound, ListsOk, Returned, Step, Hits, StateLits, LatchVars, CodesOk;
      lift, q := Lift(c, k, lift, m, g);
      LatchLitsCube(c, m);
    }

    // ----- blocking obligations -----

    ghost predicate QueueOk()
      requires Valid()
      reads this
    {
      && (forall o :: o in queue ==> ObligationOk(c, fs, o) && o.state in arena && o.state.next in arena)
      && (forall o, p :: o in queue && p in queue && o.state == p.state ==> o == p)
    }

    /** A recorded failure depth always lies beyond the current depth. */
    ghost predicate MarksOk()
      reads this, arena
    {
      forall s :: s in arena ==> s.failedDepth == 0 || s.failedDepth > |fs| - 2
    }

    /** The first obligation in queue order: lowest level, then smallest depth. */
    method First() returns (o: Obligation)
      requires queue != {}
      ensures IsFirst(queue, o)
    {
      o := Pick(queue);
      var rest := queue - {o};
      while rest != {}
        invariant o in queue && o !in rest && rest <= queue
        invariant forall p :: p in queue - rest ==> o.level < p.level || (o.level == p.level && o.depth <= p.depth)
        decreases rest
      {
        var p := Pick(rest);
        rest := rest - {p};
        if p.level < o.level || (p.level == o.level && p.depth < o.depth) {
          o := p;
        }
      }
    }

    /** Long lemmas count against the successor of the blocked state. */
    method Punish(p: State, size: nat)
      modifies p`failed
      ensures p.failed == old(p.failed) + if size > 30 then 5 else if size > 20 then 3 else if size > 10 then 1 else 0
    {
      if size > 30 {
        p.failed := p.failed + 5;
      } else if size > 20 {
        p.failed := p.failed + 3;
      } else if size > 10 {
        p.failed := p.failed + 1;
      }
    }

    /** Gives up an obligation that lies beyond the current depth and marks its successor. */
    method Discard(o: Obligation, mark: nat)
      requires Valid() && QueueOk() && MarksOk() && o in queue && mark > |fs| - 2
      modifies this`queue, o.state`failedDepth, o.state.next`failedDepth
      ensures Valid() && QueueOk() && MarksOk() && queue == old(queue) - {o}
      ensures o.state.failedDepth == mark && (o.state.next != null ==> o.state.next.failedDepth == mark)
    {
      hide CodesOk, FrameOk, SolversOk, Sound, ListsOk, LiftOk, ObligationOk;
      queue := queue - {o};
      o.state.failedDepth := mark;
      if o.state.next != null {
        o.state.next.failedDepth := mark;
      }
    }

    /** Generalises the core of a blocked obligation, pushes it forward, and re-queues the
        obligation at the frame where pushing stopped. */
    method BlockObligation(o: Obligation)
      requires Valid() && QueueOk() && o in queue && DepthOf() >= 1
      requires core <= o.state.latches && IsCube(c, core) && !MeetsInit(c, core)
      requires Blocked(c, o.level == 0, fs[o.level], core, core)
      modifies this`frames, this`fs, this`core, this`lift, this`earliestStrengthened, this`queue, o.state.next`failed
      ensures Valid() && Stronger(old(fs), fs) && |frames| == old(|frames|)
      ensures Covered(fs, o.level + 1, o.state.latches)
      ensures queue == old(queue) - {o}
              || exists i :: o.level < i <= DepthOf() && queue == old(queue) - {o} + {Obligation(o.state, i, o.depth)}
      ensures Requeued(c, old(fs), fs, Lists(frames), old(core), old(queue) - {o}, queue, o, !usePr)
      ensures QueueOk()
    {
      hide CodesOk, FrameOk, SolversOk, Sound, ListsOk, LiftOk, Blocked, MeetsInit, Chain, Excludes, IsCube, ObligationOk;
      ObligationFacts(c, fs, o);
      queue := queue - {o};
      ghost var fs0 := fs;
      var q := Mic(core, o.level, 1, false);
      if o.state.next != null {
        Punish(o.state.next, |q|);
      }
      ghost var fs1, queue1 := fs, queue;
      ObligationKept(c, fs0, fs, o);
      QueueKept(c, fs0, fs, queue);
      ghost var i := PushAndRequeue(o, q);
      StrongerTrans(fs0, fs1, fs);
      RequeueEarlier(c, fs0, fs1, fs, Lists(frames), queue1, queue, o, i, q, !usePr);
    }

    /** Pushes the generalised cube forward, adds it, and re-queues the obligation where pushing stopped. */
    method PushAndRequeue(o: Obligation, q: Cube) returns (ghost i: int)
      requires Valid() && QueueOk() && ObligationOk(c, fs, o) && o.state in arena && o.state.next in arena
      requires forall p :: p in queue ==> p.state != o.state
      requires q <= o.state.latches && IsCube(c, q) && !MeetsInit(c, q) && Blocked(c, o.level == 0, fs[o.level], q, q)
      modifies this`frames, this`fs, this`core, this`lift, this`earliestStrengthened, this`queue
      ensures Valid() && Stronger(old(fs), fs) && |frames| == old(|frames|)
      ensures Covered(fs, o.level + 1, o.state.latches)
      ensures Requeue(c, old(fs), fs, Lists(frames), old(queue), queue, o, i, q, !usePr)
      ensures usePr && i <= DepthOf() ==>
                (Obligation(o.state, i, o.depth) in queue <==> Subsumed(old(Lists(frames)), i, o.state.latches))
      ensures QueueOk()
    {
      hide CodesOk, FrameOk, SolversOk, Sound, ListsOk, LiftOk, Blocked, MeetsInit, Chain, Excludes, IsCube, ObligationOk;
      ObligationFacts(c, fs, o);
      ghost var fs0 := fs;
      var k := PushForward(q, o.level + 1);
      i := k;
      var vars := Vars(o.state.latches);
      var push := !usePr || exists lemma_ :: lemma_ in frames[k].cubes && Vars(lemma_) <= vars;
      assert usePr ==> (push <==> Subsumed(Lists(frames), k, o.state.latches));
      AddCube(q, k, true, false);
      ObligationKept(c, fs0, fs, o);
      QueueKept(c, fs0, fs, queue);
      assert q in fs[o.level + 1] && q in fs[k];
      if k <= DepthOf() && push {
        RequeuedOk(c, fs, o, k, q);
        queue := queue + {Obligation(o.state, k, o.depth)};
      }
      assert q in Lists(frames)[k];
    }

    /** Records the lifted predecessor of an obligation one frame lower. */
    method PushPredecessor(o: Obligation, m: set<int>) returns (s: State)
      requires Valid() && Shielded(c) && QueueOk() && o in queue && o.level >= 1
      requires Reaches(c, o.level == 0, fs[o.level], o.state.latches, m)
      modifies this`lift, this`queue, this`arena
      ensures Valid() && QueueOk()
      ensures fresh(s) && arena == old(arena) + {s} && s.failedDepth == 0 && s.failed == 0
      ensures s.next == o.state && s.inputs == m * InputVars(c) && s.latches <= StateLits(LatchVars(c), m)
      ensures Returned(c, s.latches, m, Unprime(c, m), ToCube(o.state.latches))
      ensures queue == old(queue) + {Obligation(s, o.level - 1, o.depth + 1)} && Pending(c, fs, Obligation(s, o.level - 1, o.depth + 1))
    {
      hide CodesOk, FrameOk, SolversOk, Sound, ListsOk, LiftOk, MeetsInit, Chain, Excludes, IsCube, Legal, Returned, Shielded, Reaches, Pending;
      assert Chain(c, o.state, o.depth);
      ChainCube(c, o.state, o.depth);
      ReachesParts(c, o.level == 0, fs[o.level], o.state.latches, m);
      var q := ExtractState(o.level, m, ToCube(o.state.latches));
      ReturnedIsLegal(c, q, m, Unprime(c, m), ToCube(o.state.latches));
      s := new State(q, m * InputVars(c), o.state);
      PredecessorOk(c, fs, o, s, m);
      SourcePending(c, fs, s, o.level, o.depth + 1, m);
      arena := arena + {s};
      queue := queue + {Obligation(s, o.level - 1, o.depth + 1)};
    }

    /** The mark with which an obligation that has a predecessor is given up, if it is: its state failed
        before at this depth or below, or it led to long lemmas and lies beyond the current depth. */
    ghost function GivenUp(o: Obligation): (mark: nat)
      reads this, o.state
    {
      var sum := o.level + o.depth;
      if o.state.failedDepth != 0 && o.state.failedDepth <= sum then o.state.failedDepth
      else if o.state.failed >= 5 && sum > DepthOf() && sum >= 0 then sum else 0
    }

    /** The obligation has a predecessor in its frame: discards it, reports a counterexample, or goes one
        frame down.  An obligation within the current depth is never discarded. */
    method Descend(o: Obligation, m: set<int>) returns (found: bool, ghost s: State?)
      requires Valid() && Shielded(c) && QueueOk() && MarksOk() && o in queue
      requires 0 <= o.level < |fs| && o.level + o.depth >= |fs| - 2
      requires Reaches(c, o.level == 0, fs[o.level], o.state.latches, m)
      modifies this`lift, this`queue, this`arena, o.state`failedDepth, o.state.next`failedDepth
      ensures Valid() && fresh(arena - old(arena)) && old(arena) <= arena
      ensures QueueOk() && MarksOk() && old(queue) - {o} <= queue && (o.level + o.depth == DepthOf() ==> o in queue)
      ensures var mark := old(GivenUp(o));
        if mark != 0 then !found && queue == old(queue) - {o} && o.state.failedDepth == mark && (o.state.next != null ==> o.state.next.failedDepth == mark)
        else if o.level == 0 then found && queue == old(queue)
        else !found && s != null && s !in old(arena) && s.next == o.state && s.inputs == m * InputVars(c) && s.latches <= StateLits(LatchVars(c), m) &&
             queue == old(queue) + {Obligation(s, o.level - 1, o.depth + 1)} && Pending(c, fs, Obligation(s, o.level - 1, o.depth + 1))
      ensures old(GivenUp(o)) == 0 ==> forall p :: p in old(queue) ==> p.state.failedDepth == old(p.state.failedDepth)
      ensures found ==> IsWitness(c, m, [o.state.inputs] + Inputs(o.state, o.depth))
    {
      hide CodesOk, FrameOk, SolversOk, Sound, ListsOk, LiftOk, MeetsInit, Excludes, IsCube, Legal, Returned, Shielded, Reaches, Covered, Pending;
      found, s := false, null;
      assert ObligationOk(c, fs, o);
      hide ObligationOk, Chain;
      var sum := o.level + o.depth;
      if o.state.failedDepth != 0 && o.state.failedDepth <= sum {
        Discard(o, o.state.failedDepth);
      } else if o.state.failed >= 5 && sum > DepthOf() {
        Discard(o, sum);
      } else if o.level == 0 {
        ReachesParts(c, true, fs[0], o.state.latches, m);
        ChainWitness(c, m, Unprime(c, m), o.state, o.depth);
        found := true;
      } else {
        s := PushPredecessor(o, m);
      }
    }

    /** Blocks the obligation or goes on from its predecessor.  No other obligation is lost, one at the
        current depth stays until it is blocked, and the measure falls unless a counterexample is found. */
    method Treat(o: Obligation) returns (found: bool, m: set<int>)
      requires Valid() && Shielded(c) && DepthOf() >= 1 && QueueOk() && MarksOk() && IsFirst(queue, o)
      modifies this`frames, this`fs, this`core, this`lift, this`earliestStrengthened, this`queue, this`arena, arena
      ensures Valid() && Stronger(old(fs), fs) && |frames| == old(|frames|)
      ensures QueueOk() && MarksOk() && fresh(arena - old(arena)) && old(arena) <= arena
      ensures old(queue) - {o} <= queue
      ensures o.level + o.depth == DepthOf() ==> o in queue || Covered(fs, o.level + 1, o.state.latches)
      ensures found ==> IsWitness(c, m, [o.state.inputs] + Inputs(o.state, o.depth))
      ensures !found ==> Load(c, fs, queue, Marked(queue)) < old(Load(c, fs, queue, Marked(queue)))
    {
      hide CodesOk, FrameOk, SolversOk, Sound, ListsOk, LiftOk, MeetsInit, Chain, Excludes, IsCube, Shielded, Reaches, Blocked, ObligationOk, Covered, IsWitness, Load;
      ObligationFacts(c, fs, o);
      found := false;
      var ok;
      ok, m := IsInductive(o.level, o.state.latches, true);
      if ok {
        BlockFirst(o);
      } else {
        found := DescendFirst(o, m);
      }
    }

    /** Blocking the first obligation lowers the measure. */
    method BlockFirst(o: Obligation)
      requires Valid() && DepthOf() >= 1 && QueueOk() && MarksOk() && IsFirst(queue, o)
      requires core <= o.state.latches && IsCube(c, core) && !MeetsInit(c, core)
      requires Blocked(c, o.level == 0, fs[o.level], core, core)
      modifies this`frames, this`fs, this`core, this`lift, this`earliestStrengthened, this`queue, o.state.next`failed
      ensures Valid() && Stronger(old(fs), fs) && |frames| == old(|frames|)
      ensures QueueOk() && MarksOk() && old(queue) - {o} <= queue && Covered(fs, o.level + 1, o.state.latches)
      ensures Load(c, fs, queue, Marked(queue)) < old(Load(c, fs, queue, Marked(queue)))
    {
      hide CodesOk, FrameOk, SolversOk, Sound, ListsOk, LiftOk, MeetsInit, IsCube, Blocked, ObligationOk, Covered, Load, Requeued;
      QueueFacts(c, fs, queue);
      ghost var fs0, queue0, marked0 := fs, queue, Marked(queue);
      BlockObligation(o);
      SoundCubes(c, fs);
      BlockFalls(c, fs0, fs, queue0, marked0, o, queue, Marked(queue));
    }

    /** So does descending from it, unless a counterexample is found. */
    method DescendFirst(o: Obligation, m: set<int>) returns (found: bool)
      requires Valid() && Shielded(c) && QueueOk() && MarksOk() && IsFirst(queue, o)
      requires Reaches(c, o.level == 0, fs[o.level], o.state.latches, m)
      modifies this`lift, this`queue, this`arena, o.state`failedDepth, o.state.next`failedDepth
      ensures Valid() && fresh(arena - old(arena)) && old(arena) <= arena
      ensures QueueOk() && MarksOk() && old(queue) - {o} <= queue && (o.level + o.depth == DepthOf() ==> o in queue)
      ensures found ==> IsWitness(c, m, [o.state.inputs] + Inputs(o.state, o.depth))
      ensures !found ==> Load(c, fs, queue, Marked(queue)) < old(Load(c, fs, queue, Marked(queue)))
    {
      hide CodesOk, FrameOk, SolversOk, Sound, ListsOk, LiftOk, Shielded, Reaches, ObligationOk, IsWitness, Load, Pending;
      QueueFacts(c, fs, queue);
      ObligationFacts(c, fs, o);
      ghost var queue0, marked0 := queue, Marked(queue);
      ghost var mark, s := GivenUp(o), null;
      found, s := Descend(o, m);
      if mark != 0 {
        DueMarks(queue0, o, mark);
        DiscardFalls(c, fs, queue0, marked0, o, Marked(queue));
      } else if !found {
        LowerFalls(c, fs, queue0, marked0, o, Obligation(s, o.level - 1, o.depth + 1), Marked(queue));
      }
    }

    /** Polls, and takes the first obligation if the search goes on. */
    method NextObligation() returns (stop: bool, o: Obligation)
      requires Valid() && QueueOk() && MarksOk() && queue != {}
      modifies this`polls
      ensures Valid() && QueueOk() && MarksOk() && IsFirst(queue, o)
      ensures !stop ==> old(polls) == polls + 1
      ensures stop ==> polls == old(polls) == 0
    {
      hide CodesOk, SolversOk, Sound, ListsOk, LiftOk, ObligationOk;
      stop := Poll();
      o := First();
    }

    /** As long as there is an obligation, something is left of the measure. */
    lemma QueueLoad()
      requires Valid() && QueueOk() && queue != {}
      ensures Load(c, fs, queue, Marked(queue)) > 0
    {
      hide CodesOk, SolversOk, Sound, ListsOk, LiftOk, ObligationOk, Load;
      SomeLoad(c, fs, queue, Marked(queue));
    }

    /** Works off the queue that starts with the counterexample to induction `root`.  It finishes within a
        number of steps that depends on the states left and the number of frames. */
    method RecBlock(root: State) returns (r: BlockResult)
      requires Valid() && Shielded(c) && DepthOf() >= 1
      requires queue == {Obligation(root, DepthOf() - 1, 1)} && QueueOk() && MarksOk()
      requires Pending(c, fs, Obligation(root, DepthOf() - 1, 1))
      modifies this`frames, this`fs, this`core, this`lift, this`earliestStrengthened, this`queue, this`arena, this`polls, arena
      ensures Valid() && Stronger(old(fs), fs) && |frames| == old(|frames|)
      ensures r.AllBlocked? ==> queue == {} && Covered(fs, |fs| - 2, root.latches) && Size(c, fs) < old(Size(c, fs))
      ensures r.Counterexample? ==> IsWitness(c, r.start, r.inputs)
      ensures polls <= old(polls) && old(polls) - polls <= Budget(old(Size(c, fs)), 1, Cap(old(|fs|)))
      ensures r.Stopped? ==> polls == 0 && old(polls) < Budget(old(Size(c, fs)), 1, Cap(old(|fs|)))
    {
      hide CodesOk, FrameOk, SolversOk, Sound, ListsOk, LiftOk, MeetsInit, Chain, Excludes, IsCube, Legal, Returned, Shielded, Reaches, Blocked, ObligationOk, Covered, Load, Pending, Budget, Size, IsWitness, Marked, Cap, Stronger, QueueOk, MarksOk;
      ghost var first, bound := Obligation(root, DepthOf() - 1, 1), Budget(Size(c, fs), 1, Cap(|fs|));
      StartLoad(c, fs, queue, Marked(queue));
      StrongerSelf(fs);
      while queue != {}
        invariant Valid() && QueueOk() && MarksOk()
        invariant Stronger(old(fs), fs) && |frames| == old(|frames|)
        invariant old(arena) <= arena && fresh(arena - old(arena))
        invariant first in queue || Covered(fs, |fs| - 2, root.latches)
        invariant polls <= old(polls) && old(polls) - polls + Load(c, fs, queue, Marked(queue)) <= bound
        decreases polls
      {
        QueueLoad();
        var stop, o := NextObligation();
        if stop {
          return Stopped;
        }
        ghost var fs0 := fs;
        var found, m := Treat(o);
        StrongerTrans(old(fs), fs0, fs);
        if found {
          return Counterexample(m, [o.state.inputs] + Inputs(o.state, o.depth));
        }
        CoveredKept(fs0, fs, |fs| - 2, root.latches);
      }
      RootLost(c, old(fs), fs, first);
      return AllBlocked;
    }

    /** Looks for a step from the deepest frame to bad and lifts its source. */
    method GetPreOfBad() returns (root: State?)
      requires Valid() && Shielded(c) && DepthOf() >= 1
      modifies this`lift
      ensures Valid()
      ensures root == null ==> BadFree(c, fs, |fs| - 2)
      ensures root != null ==> fresh(root) && root.next != null && fresh(root.next)
                               && root.failedDepth == 0 && root.next.failedDepth == 0
                               && ObligationOk(c, fs, Obligation(root, DepthOf() - 1, 1))
                               && Pending(c, fs, Obligation(root, DepthOf() - 1, 1))
    {
      hide CodesOk, FrameOk, Sound, ListsOk, LiftOk, MeetsInit, Chain, Excludes, IsCube, Legal, Returned, Shielded;
      var d := DepthOf();
      assert FrameOk(c, k, d == 0, fs[d], frames[d].solver);
      var found, m := CheckBadSuccessor(c, k, frames[d].solver, d == 0, fs[d]);
      if !found {
        return null;
      }
      var q := ExtractState(d, m, ToBad);
      var end := new State(StateLits(LatchVars(c), Unprime(c, m)), Unprime(c, m) * InputVars(c), null);
      root := new State(q, m * InputVars(c), end);
      ReturnedIsLegal(c, q, m, Unprime(c, m), ToBad);
      RootOk(c, fs, root, m);
      SourcePending(c, fs, root, d, 1, m);
    }

    // ----- propagation -----

    /** Moves every cube of frame `i` that is inductive there into frame i+1.  What stays was not inductive
        relative to the frame; what goes leaves part of itself in the next list. */
    method PropagateFrame(i: int)
      requires Valid() && 1 <= i <= DepthOf()
      modifies this`frames, this`fs, this`core, this`earliestStrengthened
      ensures Valid() && Stronger(old(fs), fs) && |frames| == old(|frames|) && earliestStrengthened == old(earliestStrengthened)
      ensures Pushed(c, old(fs), old(Lists(frames)), Lists(frames), i, {})
    {
      hide CodesOk, FrameOk, Sound, LiftOk, Blocked, MeetsInit, IsCube, Kept, Reaches, Pushed, SolversOk, ListsOk, Lists;
      var todo := frames[i].cubes;
      NothingPushed(c, fs, Lists(frames), i);
      ListAt(frames, i);
      while todo != {}
        invariant Valid() && Stronger(old(fs), fs) && |frames| == old(|frames|) && earliestStrengthened == old(earliestStrengthened)
        invariant todo <= Lists(frames)[i] && Pushed(c, old(fs), old(Lists(frames)), Lists(frames), i, todo)
        decreases todo
      {
        var q := Pick(todo);
        ghost var todo0, lists0, fs0 := todo, Lists(frames), fs;
        todo := todo - {q};
        InLists(c, fs, Lists(frames), i, q);
        var ok := TryPush(i, q);
        StrongerTrans(old(fs), fs0, fs);
        PushedMore(c, old(fs), fs0, old(Lists(frames)), lists0, Lists(frames), i, todo0, q, ok);
      }
    }

    /** Moves one cube if it is inductive. */
    method TryPush(i: int, q: Cube) returns (ok: bool)
      requires Valid() && 1 <= i <= DepthOf() && q in Lists(frames)[i] && q in fs[i] && IsCube(c, q) && !MeetsInit(c, q)
      modifies this`frames, this`fs, this`core, this`earliestStrengthened
      ensures Valid() && Stronger(old(fs), fs) && |frames| == old(|frames|) && earliestStrengthened == old(earliestStrengthened)
      ensures ok <==> Blocked(c, false, old(fs)[i], q, q)
      ensures Moved(old(Lists(frames)), Lists(frames), i, q, ok)
    {
      hide CodesOk, FrameOk, Sound, LiftOk, Blocked, MeetsInit, IsCube, Kept, Reaches, SolversOk, ListsOk;
      var m;
      ok, m := IsInductive(i, q, true);
      if ok {
        if |core| < |q| {
          AddCube(core, i + 1, true, true);
        } else {
          SameSize(core, q);
          InAllBelow(c, fs, i, q);
          AddCube(core, i + 1, false, true);
        }
        EraseCube(i, q);
        assert core in Lists(frames)[i + 1];
      } else {
        ReachesUnblocked(c, false, fs[i], q, m);
      }
    }

    method EraseCube(i: int, q: Cube)
      requires Valid() && 1 <= i <= DepthOf() && core in frames[i + 1].cubes && core <= q
      modifies this`frames
      ensures Valid() && |frames| == old(|frames|)
      ensures Lists(frames) == old(Lists(frames))[i := old(frames)[i].cubes - {q}]
    {
      hide CodesOk, FrameOk, Sound, LiftOk, ListsOk, Kept;
      ListsAfterErase(fs, Lists(frames), i, q, core);
      ghost var fr := frames;
      frames := frames[i := frames[i].(cubes := frames[i].cubes - {q})];
      assert Lists(frames) == Lists(fr)[i := fr[i].cubes - {q}];
      ListsChange(c, k, fr, fs, frames);
    }

    /** Where propagation starts: at the top if no bad successor was found at this depth, else at the
        lowest frame strengthened since, but from time to time and at low depths at the bottom. */
    function StartFrame(): (i: int)
      requires Valid()
      reads this
      ensures 1 <= i <= DepthOf()
    {
      if topFrameCannotReachBad then DepthOf()
      else if DepthOf() % 5 != 0 && DepthOf() > 20 then earliestStrengthened
      else 1
    }

    /** Propagates the frames from the start frame on; stops at the first one whose list becomes empty, where
        the later lists form an inductive invariant.  Otherwise each of these lists keeps a cube, and none
        of the kept cubes was inductive relative to its frame. */
    method Propagate() returns (found: bool, i: int)
      requires Valid() && BadFree(c, fs, |fs| - 2)
      modifies this`frames, this`fs, this`core, this`earliestStrengthened
      ensures Valid() && |frames| == old(|frames|) && BadFree(c, fs, |fs| - 2) && Stronger(old(fs), fs)
      ensures found ==> old(StartFrame()) <= i <= DepthOf() && Invariant(c, UnionFrom(Lists(frames), i + 1)) && Lists(frames)[i] == {}
      ensures !found ==> forall j :: old(StartFrame()) <= j <= DepthOf() ==> StaysNonEmpty(c, old(fs), Lists(frames), j)
    {
      hide CodesOk, FrameOk, SolversOk, Sound, LiftOk, ListsOk, BadFree, Blocked, Pushed, StaysNonEmpty, Lists;
      i := 1;
      if DepthOf() % 5 != 0 && DepthOf() > 20 {
        i := earliestStrengthened;
      }
      if topFrameCannotReachBad {
        i := DepthOf();
      }
      ghost var start := i;
      StrongerSelf(fs);
      while i <= DepthOf()
        invariant Valid() && |frames| == old(|frames|) && BadFree(c, fs, |fs| - 2) && start <= i && Stronger(old(fs), fs)
        invariant forall j :: start <= j < i ==> StaysNonEmpty(c, old(fs), Lists(frames), j)
        decreases DepthOf() - i
      {
        ghost var fs0, lists0 := fs, Lists(frames);
        PropagateFrame(i);
        StrongerExcludes(c, fs0, fs, |fs| - 2, {});
        StrongerTrans(old(fs), fs0, fs);
        ListAt(frames, i);
        LowerListsStay(c, old(fs), fs0, lists0, Lists(frames), start, i);
        if frames[i].cubes == {} {
          BadFreeBelow(c, fs, i);
          EmptyFrameInvariant(c, fs, Lists(frames), i);
          return true, i;
        }
        KeepsSome(c, old(fs), fs0, lists0, Lists(frames), i);
        i := i + 1;
      }
      return false, 0;
    }

    /** Opens a frame on top once the deepest one has no bad successor. */
    method NewFrame()
      requires Valid() && BadFree(c, fs, |fs| - 2)
      modifies this`frames, this`fs
      ensures Valid() && fs == old(fs) + [{}]
    {
      hide CodesOk, FrameOk, Sound, LiftOk, BadFree, Kept;
      var s := NewFrameSolver(c, k, false);
      NewFrameSound(c, fs);
      ListsAfterNew(fs, Lists(frames));
      ghost var fr := frames;
      frames := frames + [Frame({}, s)];
      fs := fs + [{}];
      assert Lists(frames) == Lists(fr) + [{}];
    }
  }

  function NewLiftSolver(c: Aig, k: Codes): (s: Solver)
    requires WellFormed(c) && CodesOk(c, k)
    ensures LiftOk(k, s)
  {
    Solver(k.liftBase, k.liftLim, false)
  }

  ghost predicate LiftOk(k: Codes, s: Solver) {
    Loaded(s, k.liftBase, k.liftLim) && (s.clearFlag ==> k.liftLim < s.nv)
  }

  /** What has been tried: literals `stuck` could not be dropped, the last `recent` of them in a row. */
  ghost predicate Tried(c: Aig, zero: bool, lemmas: set<Cube>, cube: Cube, r: Cube, todo: set<int>, stuck: set<int>, recent: set<int>)
    requires WellFormed(c)
  {
    && r - todo <= stuck && recent <= stuck * r && (forall x :: x in recent ==> x !in todo)
    && forall l :: l in stuck && l in r ==> Tight(c, zero, lemmas, cube, r, l)
  }

  /** All literals of the result have been tried in vain, or more than the limit in a row. */
  ghost predicate TriedAll(c: Aig, zero: bool, lemmas: set<Cube>, cube: Cube, r: Cube)
    requires WellFormed(c)
  {
    exists stuck :: stuck <= r && (stuck == r || |stuck| > CTG_TRIES) && forall l :: l in stuck ==> Tight(c, zero, lemmas, cube, r, l)
  }

  lemma NothingTried(c: Aig, zero: bool, lemmas: set<Cube>, cube: Cube)
    requires WellFormed(c)
    ensures Tried(c, zero, lemmas, cube, cube, cube, {}, {})
  {
  }

  lemma AllTried(c: Aig, zero: bool, lemmas: set<Cube>, cube: Cube, r: Cube, todo: set<int>, stuck: set<int>, recent: set<int>)
    requires WellFormed(c) && Tried(c, zero, lemmas, cube, r, todo, stuck, recent) && (todo == {} || |recent| > CTG_TRIES)
    ensures TriedAll(c, zero, lemmas, cube, r)
  {
    hide Tight;
    var known := if todo == {} then r else recent;
    assert known <= r && (known == r || |known| > CTG_TRIES) && forall l :: l in known ==> Tight(c, zero, lemmas, cube, r, l);
  }

  /** The cube got smaller, or the literal was gone already. */
  lemma Dropped(c: Aig, zero: bool, lemmas: set<Cube>, cube: Cube, r: Cube, s: Cube, todo: set<int>, l: int, stuck: set<int>, recent: set<int>)
    requires WellFormed(c) && Tried(c, zero, lemmas, cube, r, todo, stuck, recent) && s <= r && l !in s
    ensures Tried(c, zero, lemmas, cube, s, todo - {l}, stuck, {})
  {
    hide Droppable;
    forall x | x in stuck && x in s
      ensures Tight(c, zero, lemmas, cube, s, x)
    {
      var t :| r <= t <= cube && x in t && !Droppable(c, zero, lemmas, t - {x});
    }
  }

  lemma Failed(c: Aig, fs: seq<set<Cube>>, gs: seq<set<Cube>>, level: int, cube: Cube, r: Cube, todo: set<int>, l: int, stuck: set<int>, recent: set<int>)
    requires WellFormed(c) && Stronger(fs, gs) && 0 <= level < |fs| && r <= cube && l in r && l in todo
    requires Tried(c, level == 0, fs[level], cube, r, todo, stuck, recent)
    requires !Droppable(c, level == 0, gs[level], r - {l})
    ensures Tried(c, level == 0, fs[level], cube, r, todo - {l}, stuck + {l}, recent + {l}) && |recent + {l}| == |recent| + 1
  {
    hide MeetsInit, Blocked;
    if Blocked(c, level == 0, fs[level], r - {l}, r - {l}) {
      StrongerBlocked(c, fs, gs, level, r - {l}, r - {l});
    }
    assert !Droppable(c, level == 0, fs[level], r - {l});
    hide Droppable;
    assert Tight(c, level == 0, fs[level], cube, r, l);
    assert l !in recent;
  }

  lemma ReachesUnblocked(c: Aig, zero: bool, lemmas: set<Cube>, cube: Cube, m: set<int>)
    requires WellFormed(c) && Reaches(c, zero, lemmas, cube, m)
    ensures !Blocked(c, zero, lemmas, cube, cube)
  {
    hide InFrame, Step;
  }

  lemma ReachesParts(c: Aig, zero: bool, lemmas: set<Cube>, cube: Cube, m: set<int>)
    requires WellFormed(c) && Reaches(c, zero, lemmas, cube, m)
    ensures InFrame(c, zero, lemmas, m) && Step(c, m, Unprime(c, m)) && AllHold(Unprime(c, m), cube)
  {
  }

  /** The query contains the negated cube, so the predecessor disagrees with it somewhere and the
      join is strictly smaller. */
  lemma JoinShrinks(c: Aig, zero: bool, lemmas: set<Cube>, cube: Cube, m: set<int>, cti: Cube)
    requires WellFormed(c) && IsCube(c, cube) && Reaches(c, zero, lemmas, cube, m) && cti <= StateLits(LatchVars(c), m)
    ensures |cube * cti| < |cube|
  {
    hide Step, InFrame, Unprime;
    var l :| l in cube && !Holds(m, l);
    LatchLitsCube(c, m);
    assert l !in cti;
    assert l in cube - cti;
    assert |cube - cti| + |cube * cti| == |cube|;
  }

  lemma LemmaUpdate(c: Aig, k: Codes, frames: seq<Frame>, fs: seq<set<Cube>>, i: int, s: Solver, f: set<Cube>)
    requires WellFormed(c) && SolversOk(c, k, frames, fs) && 0 <= i < |fs| && FrameOk(c, k, i == 0, f, s)
    ensures SolversOk(c, k, frames[i := frames[i].(solver := s)], fs[i := f])
    ensures Lists(frames[i := frames[i].(solver := s)]) == Lists(frames)
  {
    hide FrameOk;
  }

  lemma SolversLength(c: Aig, k: Codes, frames: seq<Frame>, fs: seq<set<Cube>>)
    requires WellFormed(c) && SolversOk(c, k, frames, fs)
    ensures |frames| == |fs|
  {
  }

  lemma SolverAt(c: Aig, k: Codes, frames: seq<Frame>, fs: seq<set<Cube>>, i: int)
    requires WellFormed(c) && SolversOk(c, k, frames, fs) && 0 <= i < |fs|
    ensures i < |frames| && FrameOk(c, k, i == 0, fs[i], frames[i].solver)
  {
    hide FrameOk;
  }

  /** The frames after the solvers below `i` have been updated. */
  ghost function Added(fs: seq<set<Cube>>, q: Cube, i: int, level: int, toAll: bool): (gs: seq<set<Cube>>)
    ensures |gs| == |fs|
  {
    seq(|fs|, j requires 0 <= j < |fs| => if 1 <= j < i && (toAll || j == level) then fs[j] + {q} else fs[j])
  }

  lemma AddedStart(fs: seq<set<Cube>>, q: Cube, i: int, level: int, toAll: bool)
    requires i == if toAll then 1 else level
    ensures Added(fs, q, i, level, toAll) == fs
  {
  }

  lemma AddedStep(fs: seq<set<Cube>>, q: Cube, i: int, level: int, toAll: bool)
    requires 1 <= i <= level < |fs| && (toAll || i == level)
    ensures var gs := Added(fs, q, i, level, toAll); Added(fs, q, i + 1, level, toAll) == gs[i := gs[i] + {q}]
  {
  }

  lemma AddedAll(fs: seq<set<Cube>>, q: Cube, level: int, toAll: bool)
    requires 1 <= level < |fs| && (!toAll ==> forall i :: 1 <= i < level ==> q in fs[i])
    ensures Added(fs, q, level + 1, level, toAll) == AddUpTo(fs, q, level)
  {
    var gs, hs := Added(fs, q, level + 1, level, toAll), AddUpTo(fs, q, level);
    forall j | 0 <= j < |fs|
      ensures gs[j] == hs[j]
    {
      if 1 <= j < level && !toAll {
        assert fs[j] + {q} == fs[j];
      }
    }
  }

  lemma ListsChange(c: Aig, k: Codes, frames: seq<Frame>, fs: seq<set<Cube>>, frames': seq<Frame>)
    requires WellFormed(c) && SolversOk(c, k, frames, fs) && |frames'| == |frames|
    requires forall i :: 0 <= i < |frames| ==> frames'[i].solver == frames[i].solver
    ensures SolversOk(c, k, frames', fs)
  {
    hide FrameOk;
  }

  lemma AlreadyAdded(c: Aig, fs: seq<set<Cube>>, q: Cube, level: int)
    requires WellFormed(c) && Sound(c, fs) && 1 <= level < |fs| && q in fs[level]
    ensures AddUpTo(fs, q, level) == fs
  {
    hide Excludes, BadFree, IsCube, MeetsInit, Init, Bad;
    var gs := AddUpTo(fs, q, level);
    forall i | 0 <= i < |fs|
      ensures gs[i] == fs[i]
    {
      if 1 <= i <= level {
        NestedFrames(c, fs, i, level);
      }
    }
  }

  lemma KeptIntro(lists: seq<set<Cube>>, i: int, q: Cube, j: int, r: Cube)
    requires 0 <= i <= j < |lists| && r in lists[j] && r <= q
    ensures Kept(lists, i, q)
  {
  }

  lemma ListsAfterAdd(c: Aig, fs: seq<set<Cube>>, lists: seq<set<Cube>>, q: Cube, level: int)
    requires ListsOk(fs, lists) && 1 <= level < |fs|
    ensures ListsOk(AddUpTo(fs, q, level), lists[level := lists[level] + {q}])
  {
    hide AddUpTo;
    var gs, ms := AddUpTo(fs, q, level), lists[level := lists[level] + {q}];
    forall i | 0 <= i < |gs|
      ensures ms[i] <= gs[i]
    {
      assert lists[i] <= fs[i];
    }
    forall i, r | 1 <= i < |gs| && r in gs[i]
      ensures Kept(ms, i, r)
    {
      if r in fs[i] {
        assert Kept(lists, i, r);
        var j, p :| 0 <= i <= j < |lists| && p in lists[j] && p <= r;
        KeptIntro(ms, i, r, j, p);
      } else {
        assert r == q && i <= level;
        KeptIntro(ms, i, r, level, q);
      }
    }
  }

  // ----- obligations -----

  lemma StrongerSelf(fs: seq<set<Cube>>)
    ensures Stronger(fs, fs)
  {
  }

  lemma StrongerTrans(fs: seq<set<Cube>>, gs: seq<set<Cube>>, hs: seq<set<Cube>>)
    requires Stronger(fs, gs) && Stronger(gs, hs)
    ensures Stronger(fs, hs)
  {
  }

  lemma CoveredKept(fs: seq<set<Cube>>, gs: seq<set<Cube>>, i: int, q: Cube)
    requires Stronger(fs, gs) && 0 <= i < |fs|
    ensures Covered(fs, i, q) ==> Covered(gs, i, q)
  {
  }

  lemma RequeuedOk(c: Aig, fs: seq<set<Cube>>, o: Obligation, i: int, q: Cube)
    requires WellFormed(c) && Sound(c, fs) && ObligationOk(c, fs, o) && o.level < i <= Depth(fs)
    requires q in fs[i] && q <= o.state.latches
    ensures ObligationOk(c, fs, Obligation(o.state, i, o.depth))
  {
    hide Step, In, Chain, MeetsInit;
    assert Excludes(c, fs, i - 1, q);
  }

  lemma QueueKept(c: Aig, fs: seq<set<Cube>>, gs: seq<set<Cube>>, queue: set<Obligation>)
    requires WellFormed(c) && Sound(c, fs) && Sound(c, gs) && Stronger(fs, gs) && forall o :: o in queue ==> ObligationOk(c, fs, o)
    ensures forall o :: o in queue ==> ObligationOk(c, gs, o)
  {
    hide Sound, ObligationOk, Stronger;
    forall o | o in queue
      ensures ObligationOk(c, gs, o)
    {
      ObligationKept(c, fs, gs, o);
    }
  }

  lemma SoundCubes(c: Aig, fs: seq<set<Cube>>)
    requires WellFormed(c) && Sound(c, fs)
    ensures Cubes(c, fs)
  {
    hide IsCube, MeetsInit, Excludes, BadFree, Init;
  }

  lemma QueueFacts(c: Aig, fs: seq<set<Cube>>, queue: set<Obligation>)
    requires WellFormed(c) && Sound(c, fs) && forall o :: o in queue ==> ObligationOk(c, fs, o)
    requires forall o, p :: o in queue && p in queue && o.state == p.state ==> o == p
    ensures Cubes(c, fs) && Linked(queue)
    ensures forall o :: o in queue ==> IsCube(c, o.state.latches) && 0 <= o.level <= Depth(fs) && o.state.next != null
  {
    SoundCubes(c, fs);
    LinkedOk(c, fs, queue);
    hide Sound, ObligationOk, Chain, MeetsInit, IsCube;
    forall o | o in queue
      ensures IsCube(c, o.state.latches) && 0 <= o.level <= Depth(fs) && o.state.next != null
    {
      ObligationFacts(c, fs, o);
    }
  }

  /** A successor still in the queue comes later, so the mark is due for it. */
  lemma DueMarks(queue: set<Obligation>, o: Obligation, mark: nat)
    requires Linked(queue) && IsFirst(queue, o) && mark <= o.level + o.depth
    ensures forall p :: p in queue && Parent(o, p) ==> mark <= p.level + p.depth
  {
  }

  lemma StartLoad(c: Aig, fs: seq<set<Cube>>, queue: set<Obligation>, marked: set<Obligation>)
    requires |queue| == 1
    ensures Load(c, fs, queue, marked) <= Budget(Size(c, fs), 1, Cap(|fs|))
  {
    hide Total, Size, Cap, Busy;
    var w := Total(c, fs, queue, Busy(queue, marked));
    var m, k := Size(c, fs), Cap(|fs|);
    TotalCap(c, fs, queue, Busy(queue, marked));
    if m > 0 {
      BudgetMono(m - 1, m - 1, 1 + w + 1, 1 + 1 * k + 1, k);
    }
  }

  lemma SomeLoad(c: Aig, fs: seq<set<Cube>>, queue: set<Obligation>, marked: set<Obligation>)
    requires WellFormed(c) && Sound(c, fs) && queue != {} && forall o :: o in queue ==> ObligationOk(c, fs, o)
    ensures Load(c, fs, queue, marked) > 0
  {
    hide Sound, Chain, MeetsInit, Excludes, Weight, Size;
    var o :| o in queue;
    TotalPick(c, fs, queue, Busy(queue, marked), o);
    WeightPositive(c, fs, o in Busy(queue, marked), o);
  }

  lemma RootLost(c: Aig, fs: seq<set<Cube>>, gs: seq<set<Cube>>, o: Obligation)
    requires WellFormed(c) && Sound(c, fs) && Sound(c, gs) && Stronger(fs, gs) && 0 <= o.level == Depth(fs) - 1 && Pending(c, fs, o)
    requires Covered(gs, |gs| - 2, o.state.latches)
    ensures Size(c, gs) < Size(c, fs)
  {
    SoundCubes(c, fs);
    SoundCubes(c, gs);
    hide Sound, Cubes, Size;
    SizeShrinks(c, fs, gs);
    if Size(c, gs) == Size(c, fs) {
      NotPending(c, fs, gs, o);
    }
  }

  lemma LegalInputs(c: Aig, q: Cube, a: set<int>, b: set<int>, x: set<int>, y: set<int>, g: Target)
    requires WellFormed(c) && Legal(c, q, a, x, g) && SameInputs(c, a, b) && SameInputs(c, x, y)
    ensures Legal(c, q, b, y, g)
  {
    hide Follows, Constrained, Bad, Hits, AllHold;
    forall e, e' | AllHold(e, q) && SameInputs(c, e, b) && SameInputs(c, e', y) && Follows(c, e, e')
      ensures Constrained(c, e) && (Bad(c, e) || (Step(c, e, e') && Hits(c, g, e')))
    {
      assert SameInputs(c, e, a) && SameInputs(c, e', x);
    }
  }

  lemma MissesCube(c: Aig, fs: seq<set<Cube>>, i: int, q: Cube)
    requires WellFormed(c) && 0 <= i < |fs| && Excludes(c, fs, i, q)
    ensures Misses(c, fs, i, ToCube(q))
  {
  }

  lemma MissesBad(c: Aig, fs: seq<set<Cube>>, i: int)
    requires WellFormed(c) && 0 <= i < |fs| && BadFree(c, fs, i)
    ensures Misses(c, fs, i, ToBad)
  {
    hide InFrame, Step, Bad;
    assert NoBadSuccessor(c, i == 0, fs[i]);
    forall e, e' | In(c, fs, i, e) && Step(c, e, e')
      ensures !Hits(c, ToBad, e')
    {
      assert InFrame(c, i == 0, fs[i], e);
      assert !Bad(c, e');
    }
  }

  lemma InputsPart(c: Aig, m: set<int>)
    ensures SameInputs(c, m, m * InputVars(c))
  {
  }

  lemma PredecessorOk(c: Aig, fs: seq<set<Cube>>, o: Obligation, s: State, m: set<int>)
    requires WellFormed(c) && Sound(c, fs) && ObligationOk(c, fs, o) && o.level >= 1
    requires s.next == o.state && s.inputs == m * InputVars(c) && IsCube(c, s.latches)
    requires Legal(c, s.latches, m, Unprime(c, m), ToCube(o.state.latches))
    ensures ObligationOk(c, fs, Obligation(s, o.level - 1, o.depth + 1))
  {
    hide Sound, Excludes, MeetsInit, Legal, SameInputs, Unprime;
    var g := ToCube(o.state.latches);
    InputsPart(c, m);
    assert SameInputs(c, Unprime(c, m), Unprime(c, m)) by {
      SameInputsRefl(c, Unprime(c, m));
    }
    LegalInputs(c, s.latches, m, s.inputs, Unprime(c, m), Unprime(c, m), g);
    MissesCube(c, fs, o.level - 1, o.state.latches);
    LiftedMissesInit(c, fs, o.level - 1, s.latches, m, Unprime(c, m), g);
    if o.level >= 2 {
      LiftedExcluded(c, fs, o.level - 1, s.latches, m, Unprime(c, m), g);
    }
    assert Chain(c, s, o.depth + 1);
  }

  lemma SameInputsRefl(c: Aig, a: set<int>)
    ensures SameInputs(c, a, a)
  {
  }

  /** The source of the step found is a state that is still left. */
  lemma SourcePending(c: Aig, fs: seq<set<Cube>>, s: State, level: int, depth: nat, m: set<int>)
    requires WellFormed(c) && 1 <= level < |fs| && In(c, fs, level, m) && s.latches <= StateLits(LatchVars(c), m)
    ensures Pending(c, fs, Obligation(s, level - 1, depth))
  {
    hide Init;
    LitsHold(LatchVars(c), m, m);
    assert AllHold(m, s.latches) && Avoids(m, fs[level]);
  }

  lemma RootOk(c: Aig, fs: seq<set<Cube>>, root: State, m: set<int>)
    requires WellFormed(c) && Sound(c, fs) && Depth(fs) >= 1
    requires root.next != null && root.next.next == null && root.inputs == m * InputVars(c) && IsCube(c, root.latches)
    requires root.next.inputs == Unprime(c, m) * InputVars(c)
    requires Legal(c, root.latches, m, Unprime(c, m), ToBad)
    ensures ObligationOk(c, fs, Obligation(root, Depth(fs) - 1, 1))
  {
    hide Excludes, MeetsInit, Legal, Unprime, BadFree;
    var i := Depth(fs) - 1;
    InputsPart(c, m);
    assert SameInputs(c, Unprime(c, m), root.next.inputs);
    LegalInputs(c, root.latches, m, root.inputs, Unprime(c, m), root.next.inputs, ToBad);
    assert BadFree(c, fs, i);
    MissesBad(c, fs, i);
    LiftedMissesInit(c, fs, i, root.latches, m, Unprime(c, m), ToBad);
    if i >= 1 {
      LiftedExcluded(c, fs, i, root.latches, m, Unprime(c, m), ToBad);
    }
    assert Chain(c, root, 1);
  }

  // ----- propagation -----

  /** One cube was taken out of list `i`, leaving part of itself in the next one, or nothing changed. */
  ghost predicate Moved(lists: seq<set<Cube>>, lists': seq<set<Cube>>, i: int, q: Cube, ok: bool)
    requires 0 <= i < |lists| - 1
  {
    && |lists'| == |lists|
    && if ok then exists r :: r <= q && lists' == lists[i + 1 := lists[i + 1] + {r}][i := lists[i] - {q}] else lists' == lists
  }

  /** List `i` after pushing, with `todo` still to be tried: what has been kept was not inductive relative to
      the frame, what has gone has a part in the next list, and no other list changes. */
  ghost predicate Pushed(c: Aig, fs: seq<set<Cube>>, lists: seq<set<Cube>>, lists': seq<set<Cube>>, i: int, todo: set<Cube>)
    requires WellFormed(c) && 0 <= i < |lists| - 1 && |fs| == |lists|
  {
    && |lists'| == |lists| && lists'[i] <= lists[i] && lists[i + 1] <= lists'[i + 1]
    && (forall j :: 0 <= j < |lists| && j != i && j != i + 1 ==> lists'[j] == lists[j])
    && (forall q :: q in lists'[i] && q !in todo ==> !Blocked(c, false, fs[i], q, q))
    && (forall q :: q in lists[i] && q !in lists'[i] ==> exists r :: r in lists'[i + 1] && r <= q)
  }

  lemma NothingPushed(c: Aig, fs: seq<set<Cube>>, lists: seq<set<Cube>>, i: int)
    requires WellFormed(c) && 0 <= i < |lists| - 1 && |fs| == |lists|
    ensures Pushed(c, fs, lists, lists, i, lists[i])
  {
  }

  lemma ListAt(frames: seq<Frame>, i: int)
    requires 0 <= i < |frames|
    ensures |Lists(frames)| == |frames| && Lists(frames)[i] == frames[i].cubes
  {
  }

  lemma InLists(c: Aig, fs: seq<set<Cube>>, lists: seq<set<Cube>>, i: int, q: Cube)
    requires WellFormed(c) && Sound(c, fs) && ListsOk(fs, lists) && 0 <= i < |lists| && q in lists[i]
    ensures i < |fs| && q in fs[i] && IsCube(c, q) && !MeetsInit(c, q)
  {
    hide MeetsInit, IsCube, Excludes, BadFree, Kept;
  }

  lemma PushedMore(c: Aig, fs: seq<set<Cube>>, gs: seq<set<Cube>>, lists: seq<set<Cube>>, lists0: seq<set<Cube>>, lists': seq<set<Cube>>, i: int, todo: set<Cube>, q: Cube, ok: bool)
    requires WellFormed(c) && 0 <= i < |lists| - 1 && |fs| == |lists| && Stronger(fs, gs)
    requires Pushed(c, fs, lists, lists0, i, todo) && q in todo && todo <= lists0[i] && Moved(lists0, lists', i, q, ok)
    requires ok <==> Blocked(c, i == 0, gs[i], q, q)
    requires i >= 1
    ensures Pushed(c, fs, lists, lists', i, todo - {q}) && todo - {q} <= lists'[i]
  {
    if !ok && Blocked(c, false, fs[i], q, q) {
      StrongerBlocked(c, fs, gs, i, q, q);
    }
    hide Blocked;
    if ok {
      var r :| r <= q && lists' == lists0[i + 1 := lists0[i + 1] + {r}][i := lists0[i] - {q}];
      forall p | p in lists[i] && p !in lists'[i]
        ensures exists r :: r in lists'[i + 1] && r <= p
      {
        if p in lists0[i] {
          assert p == q && r in lists'[i + 1];
        } else {
          var w :| w in lists0[i + 1] && w <= p;
          assert w in lists'[i + 1];
        }
      }
    }
  }

  /** The list keeps a cube, and none of its cubes was inductive relative to the frame. */
  ghost predicate StaysNonEmpty(c: Aig, fs: seq<set<Cube>>, lists: seq<set<Cube>>, j: int)
    requires WellFormed(c)
  {
    && 0 <= j < |fs| && j < |lists| && lists[j] != {} && forall q :: q in lists[j] ==> !Blocked(c, false, fs[j], q, q)
  }

  lemma KeepsSome(c: Aig, fs: seq<set<Cube>>, gs: seq<set<Cube>>, lists: seq<set<Cube>>, lists': seq<set<Cube>>, i: int)
    requires WellFormed(c) && 1 <= i < |lists| - 1 && |fs| == |lists| && Stronger(fs, gs)
    requires Pushed(c, gs, lists, lists', i, {}) && lists'[i] != {}
    ensures StaysNonEmpty(c, fs, lists', i)
  {
    hide Blocked;
    forall q | q in lists'[i]
      ensures !Blocked(c, false, fs[i], q, q)
    {
      if Blocked(c, false, fs[i], q, q) {
        StrongerBlocked(c, fs, gs, i, q, q);
      }
    }
  }

  lemma LowerListsStay(c: Aig, fs: seq<set<Cube>>, gs: seq<set<Cube>>, lists: seq<set<Cube>>, lists': seq<set<Cube>>, start: int, i: int)
    requires WellFormed(c) && 1 <= start <= i < |lists| - 1 && |fs| == |gs| == |lists| && Pushed(c, gs, lists, lists', i, {})
    requires forall j :: start <= j < i ==> StaysNonEmpty(c, fs, lists, j)
    ensures forall j :: start <= j < i ==> StaysNonEmpty(c, fs, lists', j)
  {
    hide Blocked;
    forall j | start <= j < i
      ensures StaysNonEmpty(c, fs, lists', j)
    {
      assert StaysNonEmpty(c, fs, lists, j);
      assert lists'[j] == lists[j];
    }
  }

  lemma SameSize(a: Cube, b: Cube)
    requires a <= b && |a| >= |b|
    ensures a == b
  {
    assert |b - a| == |b| - |a * b| && a * b == a;
    assert b - a == {};
  }

  lemma InAllBelow(c: Aig, fs: seq<set<Cube>>, i: int, q: Cube)
    requires WellFormed(c) && Sound(c, fs) && 1 <= i < |fs| && q in fs[i]
    ensures forall j :: 1 <= j <= i ==> q in fs[j]
  {
    hide Sound;
    forall j | 1 <= j <= i
      ensures q in fs[j]
    {
      NestedFrames(c, fs, j, i);
    }
  }

  lemma ListsAfterErase(fs: seq<set<Cube>>, lists: seq<set<Cube>>, i: int, q: Cube, r: Cube)
    requires ListsOk(fs, lists) && 0 <= i < |lists| - 1 && r in lists[i + 1] && r <= q
    ensures ListsOk(fs, lists[i := lists[i] - {q}])
  {
    var ms := lists[i := lists[i] - {q}];
    forall j, p | 1 <= j < |fs| && p in fs[j]
      ensures Kept(ms, j, p)
    {
      assert Kept(lists, j, p);
      var h, w :| 0 <= j <= h < |lists| && w in lists[h] && w <= p;
      if h == i && w == q {
        KeptIntro(ms, j, p, i + 1, r);
      } else {
        KeptIntro(ms, j, p, h, w);
      }
    }
  }

  lemma ListsAfterNew(fs: seq<set<Cube>>, lists: seq<set<Cube>>)
    requires ListsOk(fs, lists)
    ensures ListsOk(fs + [{}], lists + [{}])
  {
    var gs, ms := fs + [{}], lists + [{}];
    forall i, q | 1 <= i < |gs| && q in gs[i]
      ensures Kept(ms, i, q)
    {
      assert Kept(lists, i, q);
      var j, r :| 0 <= i <= j < |lists| && r in lists[j] && r <= q;
      KeptIntro(ms, i, q, j, r);
    }
  }

  lemma BadFreeBelow(c: Aig, fs: seq<set<Cube>>, i: int)
    requires WellFormed(c) && Sound(c, fs) && 0 <= i <= Depth(fs) && BadFree(c, fs, Depth(fs))
    ensures BadFree(c, fs, i)
  {
    hide BadFree, Excludes, IsCube, MeetsInit, Init, Bad;
  }
}
