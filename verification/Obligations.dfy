/** Proof obligations, and why working them off comes to an end: every way of treating one lowers a
    measure made of the states left in the frames and of the obligations themselves. */
module Obligations {
  import opened Cnf
  import opened Circuit
  import opened FrameSolver
  import opened Ic3
  import opened Witness

  /** A proof obligation: block the cube of `state` in the frame after `level`. */
  datatype Obligation = Obligation(state: State, level: int, depth: nat)

  /** What every queued obligation satisfies. */
  ghost predicate ObligationOk(c: Aig, fs: seq<set<Cube>>, o: Obligation)
    requires WellFormed(c) && Sound(c, fs)
  {
    && 0 <= o.level <= Depth(fs)
    && o.level + o.depth >= Depth(fs)
    && Chain(c, o.state, o.depth)
    && !MeetsInit(c, o.state.latches)
    && (o.level >= 1 ==> Excludes(c, fs, o.level - 1, o.state.latches))
  }

  lemma ObligationKept(c: Aig, fs: seq<set<Cube>>, gs: seq<set<Cube>>, o: Obligation)
    requires WellFormed(c) && Sound(c, fs) && Sound(c, gs) && Stronger(fs, gs) && ObligationOk(c, fs, o)
    ensures ObligationOk(c, gs, o)
  {
    hide Sound, Chain, MeetsInit, Excludes;
    if o.level >= 1 {
      StrongerExcludes(c, fs, gs, o.level - 1, o.state.latches);
    }
  }

  /** The cube is excluded from frame `i` by one of its lemmas. */
  ghost predicate Covered(fs: seq<set<Cube>>, i: int, q: Cube)
    requires 0 <= i < |fs|
  {
    exists r :: r in fs[i] && r <= q
  }

  lemma ChainCube(c: Aig, s: State, d: nat)
    requires WellFormed(c) && Chain(c, s, d)
    ensures d > 0 && IsCube(c, s.latches) && s.next != null
  {
  }

  lemma ObligationFacts(c: Aig, fs: seq<set<Cube>>, o: Obligation)
    requires WellFormed(c) && Sound(c, fs) && ObligationOk(c, fs, o)
    ensures 0 <= o.level <= Depth(fs) && o.level + o.depth >= Depth(fs)
    ensures Chain(c, o.state, o.depth) && IsCube(c, o.state.latches) && o.state.next != null
    ensures !MeetsInit(c, o.state.latches)
  {
    ChainCube(c, o.state, o.depth);
  }

  // ----- states left in the frames -----

  /** All valuations of the latches. */
  ghost function Valuations(c: Aig): set<set<int>> {
    set x: set<int> | x <= LatchVars(c) :: x
  }

  /** Valuations that no cube blocks. */
  ghost function Left(c: Aig, f: set<Cube>): set<set<int>> {
    set x | x in Valuations(c) && Avoids(x, f)
  }

  ghost function Size(c: Aig, fs: seq<set<Cube>>): nat {
    if fs == [] then 0 else Size(c, fs[..|fs| - 1]) + |Left(c, fs[|fs| - 1])|
  }

  ghost predicate Cubes(c: Aig, fs: seq<set<Cube>>) {
    forall i, q :: 0 <= i < |fs| && q in fs[i] ==> IsCube(c, q)
  }

  lemma Restricted(c: Aig, e: set<int>)
    ensures e * LatchVars(c) in Valuations(c)
  {
    var x := e * LatchVars(c);
    assert x <= LatchVars(c);
  }

  /** Only the latches matter for cubes. */
  lemma LatchesMatter(c: Aig, e: set<int>, q: Cube)
    requires IsCube(c, q)
    ensures AllHold(e * LatchVars(c), q) <==> AllHold(e, q)
  {
    forall l | l in q
      ensures Holds(e * LatchVars(c), l) <==> Holds(e, l)
    {
      assert Abs(l) in LatchVars(c);
    }
  }

  lemma AvoidsByLatches(c: Aig, e: set<int>, f: set<Cube>)
    requires forall q :: q in f ==> IsCube(c, q)
    ensures e * LatchVars(c) in Valuations(c) && (Avoids(e * LatchVars(c), f) <==> Avoids(e, f))
  {
    hide IsCube, AllHold, LatchVars, Valuations;
    Restricted(c, e);
    forall q | q in f
      ensures AllHold(e * LatchVars(c), q) <==> AllHold(e, q)
    {
      LatchesMatter(c, e, q);
    }
  }

  lemma LeftShrinks(c: Aig, f: set<Cube>, g: set<Cube>)
    requires f <= g
    ensures Left(c, g) <= Left(c, f) && |Left(c, g)| <= |Left(c, f)| && (|Left(c, g)| == |Left(c, f)| ==> Left(c, g) == Left(c, f))
  {
    hide AllHold, Valuations;
    var x, y := Left(c, g), Left(c, f);
    assert y == x + (y - x);
  }

  lemma {:induction false} SizeShrinks(c: Aig, fs: seq<set<Cube>>, gs: seq<set<Cube>>)
    requires Stronger(fs, gs)
    ensures Size(c, gs) <= Size(c, fs)
    ensures Size(c, gs) == Size(c, fs) ==> forall i :: 0 <= i < |fs| ==> Left(c, gs[i]) == Left(c, fs[i])
  {
    hide Left;
    if fs != [] {
      var n := |fs| - 1;
      SizeShrinks(c, fs[..n], gs[..n]);
      LeftShrinks(c, fs[n], gs[n]);
      assert forall i :: 0 <= i < n ==> fs[..n][i] == fs[i] && gs[..n][i] == gs[i];
    }
  }

  lemma StateLost(c: Aig, fs: seq<set<Cube>>, gs: seq<set<Cube>>, i: int, e: set<int>)
    requires Stronger(fs, gs) && Cubes(c, fs) && Cubes(c, gs) && 0 <= i < |fs| && Avoids(e, fs[i]) && !Avoids(e, gs[i])
    ensures Size(c, gs) < Size(c, fs)
  {
    hide IsCube, AllHold, Size, Valuations;
    SizeShrinks(c, fs, gs);
    hide Stronger;
    AvoidsByLatches(c, e, fs[i]);
    AvoidsByLatches(c, e, gs[i]);
    var x := e * LatchVars(c);
    hide Avoids;
    assert x in Left(c, fs[i]) && x !in Left(c, gs[i]);
  }

  lemma LeftBound(c: Aig, f: set<Cube>)
    ensures |Left(c, f)| <= |Valuations(c)|
  {
    hide Valuations, Avoids;
    assert Valuations(c) == Left(c, f) + (Valuations(c) - Left(c, f));
  }

  lemma OneMore(n: nat, v: nat)
    ensures (n + 1) * v == n * v + v
  {
  }

  lemma {:induction false} SizeBound(c: Aig, fs: seq<set<Cube>>)
    ensures Size(c, fs) <= |fs| * |Valuations(c)|
  {
    hide Left, Valuations;
    if fs != [] {
      var n := |fs| - 1;
      SizeBound(c, fs[..n]);
      LeftBound(c, fs[n]);
      OneMore(n, |Valuations(c)|);
    }
  }

  lemma {:induction false} SizeAt(c: Aig, fs: seq<set<Cube>>, i: int)
    requires 0 <= i < |fs|
    ensures |Left(c, fs[i])| <= Size(c, fs)
  {
    hide Left;
    if i < |fs| - 1 {
      SizeAt(c, fs[..|fs| - 1], i);
    }
  }

  // ----- weights -----

  /** The frame in which the obligation is to be blocked still holds one of its states. */
  ghost predicate Pending(c: Aig, fs: seq<set<Cube>>, o: Obligation) {
    0 <= o.level < |fs| - 1 && exists e :: AllHold(e, o.state.latches) && Avoids(e, fs[o.level + 1])
  }

  /** How far the obligation can still move up. */
  ghost function Room(n: nat, o: Obligation): nat {
    if 0 <= o.level < n - 1 then n - 1 - o.level else 0
  }

  /** A busy obligation has a predecessor in the queue or is marked for removal. */
  ghost function Weight(c: Aig, fs: seq<set<Cube>>, busy: bool, o: Obligation): nat {
    var n := |fs|;
    if Pending(c, fs, o) then (if busy then 1 else 2 * o.level + 2)
    else Room(n, o) * (6 * n) + if busy then 0 else 2 * n
  }

  ghost function Total(c: Aig, fs: seq<set<Cube>>, s: set<Obligation>, busy: set<Obligation>): nat {
    if s == {} then 0
    else
      var o :| o in s;
      Weight(c, fs, o in busy, o) + Total(c, fs, s - {o}, busy)
  }

  lemma {:induction false} TotalPick(c: Aig, fs: seq<set<Cube>>, s: set<Obligation>, busy: set<Obligation>, o: Obligation)
    requires o in s
    ensures Total(c, fs, s, busy) == Weight(c, fs, o in busy, o) + Total(c, fs, s - {o}, busy)
    decreases |s|
  {
    hide Weight;
    var p :| p in s && Total(c, fs, s, busy) == Weight(c, fs, p in busy, p) + Total(c, fs, s - {p}, busy);
    if p != o {
      TotalPick(c, fs, s - {p}, busy, o);
      TotalPick(c, fs, s - {o}, busy, p);
      assert s - {p} - {o} == s - {o} - {p};
    }
  }

  lemma TotalAdd(c: Aig, fs: seq<set<Cube>>, s: set<Obligation>, busy: set<Obligation>, o: Obligation)
    requires o !in s
    ensures Total(c, fs, s + {o}, busy) == Weight(c, fs, o in busy, o) + Total(c, fs, s, busy)
  {
    hide Weight, Total;
    TotalPick(c, fs, s + {o}, busy, o);
    assert s + {o} - {o} == s;
  }

  /** With the same states left, more busy obligations weigh less; one may become idle. */
  lemma {:induction false} TotalFalls(c: Aig, fs: seq<set<Cube>>, gs: seq<set<Cube>>, s: set<Obligation>, busy: set<Obligation>, busy': set<Obligation>, idle: set<Obligation>)
    requires |gs| == |fs| && (forall o :: o in s ==> (Pending(c, gs, o) <==> Pending(c, fs, o)))
    requires forall o :: o in s && o in busy ==> o in busy' || o in idle
    requires forall o, p :: o in idle && p in idle ==> o == p
    ensures Total(c, gs, s, busy') <= Total(c, fs, s, busy) + 2 * |fs|
    ensures s * idle == {} ==> Total(c, gs, s, busy') <= Total(c, fs, s, busy)
    decreases |s|
  {
    hide Pending;
    if s != {} {
      var o :| o in s;
      TotalPick(c, fs, s, busy, o);
      TotalPick(c, gs, s, busy', o);
      var rest := s - {o};
      if o in idle {
        assert rest * idle == {};
      }
      TotalFalls(c, fs, gs, rest, busy, busy', idle);
      assert Weight(c, gs, o in busy', o) <= Weight(c, fs, o in busy, o) + if o in idle then 2 * |fs| else 0 by {
        WeightFalls(c, fs, gs, o in busy, o in busy', o);
      }
      assert s * idle == {} ==> o !in idle && rest * idle == {};
    }
  }

  lemma WeightFalls(c: Aig, fs: seq<set<Cube>>, gs: seq<set<Cube>>, busy: bool, busy': bool, o: Obligation)
    requires |gs| == |fs| && (Pending(c, gs, o) <==> Pending(c, fs, o))
    ensures Weight(c, gs, busy', o) <= Weight(c, fs, busy, o) + if busy && !busy' then 2 * |fs| else 0
  {
    assert Pending(c, fs, o) ==> 0 <= o.level < |fs| - 1;
  }

  /** Heaviest possible obligation. */
  function Cap(n: nat): nat {
    n * (6 * n) + 2 * n
  }

  lemma WeightCap(c: Aig, fs: seq<set<Cube>>, busy: bool, o: Obligation)
    ensures Weight(c, fs, busy, o) <= Cap(|fs|)
  {
    var n := |fs|;
    assert Room(n, o) * (6 * n) <= n * (6 * n) by {
      MulMono(Room(n, o), n, 6 * n);
    }
    assert 0 <= n * (6 * n);
  }

  lemma MulMono(a: nat, b: nat, k: nat)
    requires a <= b
    ensures a * k <= b * k
  {
  }

  lemma {:induction false} TotalCap(c: Aig, fs: seq<set<Cube>>, s: set<Obligation>, busy: set<Obligation>)
    ensures Total(c, fs, s, busy) <= |s| * Cap(|fs|)
    decreases |s|
  {
    hide Weight, Cap;
    if s != {} {
      var o :| o in s;
      TotalPick(c, fs, s, busy, o);
      WeightCap(c, fs, o in busy, o);
      var rest := s - {o};
      TotalCap(c, fs, rest, busy);
      assert |s| == |rest| + 1;
      assert (|rest| + 1) * Cap(|fs|) == |rest| * Cap(|fs|) + Cap(|fs|);
    }
  }

  // ----- the budget -----

  /** A bound on how many obligations can be treated, with `m` states left, `n` obligations, and at most
      weight `k` for each. */
  ghost function Budget(m: nat, n: nat, k: nat): nat {
    n * k + if m == 0 then 0 else 1 + Budget(m - 1, n + n * k + 1, k)
  }

  /** The same with the actual weight of the queue. */
  ghost function Energy(m: nat, n: nat, w: nat, k: nat): nat {
    w + if m == 0 then 0 else 1 + Budget(m - 1, n + w + 1, k)
  }

  lemma {:induction false} BudgetMono(m: nat, m': nat, n: nat, n': nat, k: nat)
    requires m <= m' && n <= n'
    ensures Budget(m, n, k) <= Budget(m', n', k)
    decreases m'
  {
    MulMono(n, n', k);
    if m > 0 {
      BudgetMono(m - 1, m' - 1, n + n * k + 1, n' + n' * k + 1, k);
    }
  }

  /** Fewer states, or the same states and less weight, mean less energy. */
  lemma EnergyFalls(m: nat, n: nat, w: nat, m': nat, n': nat, w': nat, k: nat)
    requires (m' < m && n' <= n) || (m' == m && w' < w && n' <= n + 1)
    requires w' <= n' * k
    ensures Energy(m', n', w', k) < Energy(m, n, w, k)
  {
    if m' == m {
      if m > 0 {
        BudgetMono(m - 1, m - 1, n' + w' + 1, n + w + 1, k);
      }
    } else {
      if m' > 0 {
        BudgetMono(m' - 1, m' - 1, n' + w' + 1, n' + n' * k + 1, k);
      }
      assert Energy(m', n', w', k) <= Budget(m', n', k);
      BudgetMono(m', m - 1, n', n + w + 1, k);
    }
  }

  /** Rounds of the main loop that can be spent at one depth, with `m` states left. */
  ghost function DepthBudget(m: nat, k: nat): nat {
    1 + if m == 0 then 0 else Budget(m, 1, k) + DepthBudget(m - 1, k)
  }

  /** Rounds that can be spent up to depth `d`, with `v` valuations of the latches. */
  ghost function RunBudget(v: nat, d: nat): nat {
    DepthBudget((d + 2) * v, Cap(d + 2)) + if d == 0 then 0 else RunBudget(v, d - 1)
  }

  lemma {:induction false} DepthBudgetMono(m: nat, m': nat, k: nat)
    requires m <= m'
    ensures DepthBudget(m, k) <= DepthBudget(m', k)
  {
    if m < m' {
      DepthBudgetMono(m, m' - 1, k);
    }
  }

  /** A state was lost after at most a budget of rounds. */
  lemma RootSpent(m: nat, m': nat, spent: nat, k: nat)
    requires m' < m && spent <= Budget(m, 1, k)
    ensures 1 + spent + DepthBudget(m', k) <= DepthBudget(m, k)
  {
    DepthBudgetMono(m', m - 1, k);
  }

  lemma RootStopped(m: nat, spent: nat, k: nat)
    requires m > 0 && spent < Budget(m, 1, k)
    ensures 1 + spent < DepthBudget(m, k)
  {
  }

  /** Opening a frame. */
  lemma FrameOpened(c: Aig, fs: seq<set<Cube>>, used: nat, d: nat)
    requires |fs| == d + 2 && d >= 1 && used <= RunBudget(|Valuations(c)|, d - 1)
    ensures used + DepthBudget(Size(c, fs), Cap(|fs|)) <= RunBudget(|Valuations(c)|, d)
  {
    SizeBound(c, fs);
    DepthBudgetMono(Size(c, fs), (d + 2) * |Valuations(c)|, Cap(|fs|));
  }

  lemma DepthPositive(m: nat, k: nat)
    ensures DepthBudget(m, k) >= 1
  {
  }

  // ----- what treating an obligation does to the measure -----

  ghost predicate HasChild(queue: set<Obligation>, o: Obligation) {
    exists p :: p in queue && p.state.next == o.state && p.level == o.level - 1
  }

  ghost function Busy(queue: set<Obligation>, marked: set<Obligation>): set<Obligation> {
    set o | o in queue && (o in marked || HasChild(queue, o))
  }

  /** Obligations whose state carries a failure mark that is due. */
  ghost function Marked(queue: set<Obligation>): set<Obligation>
    reads set o | o in queue :: o.state
  {
    set o | o in queue && o.state.failedDepth != 0 && o.state.failedDepth <= o.level + o.depth
  }

  /** Each state has one obligation, and a predecessor one more step to bad. */
  ghost predicate Linked(queue: set<Obligation>) {
    && (forall o, p :: o in queue && p in queue && o.state == p.state ==> o == p)
    && (forall o, p :: o in queue && p in queue && p.state.next == o.state ==> p.depth == o.depth + 1)
  }

  lemma LinkedOk(c: Aig, fs: seq<set<Cube>>, queue: set<Obligation>)
    requires WellFormed(c) && Sound(c, fs) && forall o :: o in queue ==> ObligationOk(c, fs, o)
    requires forall o, p :: o in queue && p in queue && o.state == p.state ==> o == p
    ensures Linked(queue)
  {
    hide Sound, MeetsInit, Excludes, IsCube, Legal;
    forall o, p | o in queue && p in queue && p.state.next == o.state
      ensures p.depth == o.depth + 1
    {
      ChainCube(c, o.state, o.depth);
      assert Chain(c, p.state, p.depth);
      assert p.depth > 1;
      ChainLength(c, o.state, p.depth - 1, o.depth);
    }
  }

  /** No other obligation comes first. */
  ghost predicate IsFirst(queue: set<Obligation>, o: Obligation) {
    o in queue && forall p :: p in queue ==> o.level < p.level || (o.level == p.level && o.depth <= p.depth)
  }

  lemma SamePending(c: Aig, fs: seq<set<Cube>>, gs: seq<set<Cube>>, o: Obligation)
    requires |gs| == |fs| && Cubes(c, fs) && Cubes(c, gs) && IsCube(c, o.state.latches)
    requires forall i :: 0 <= i < |fs| ==> Left(c, gs[i]) == Left(c, fs[i])
    ensures Pending(c, gs, o) <==> Pending(c, fs, o)
  {
    if Pending(c, fs, o) {
      PendingToo(c, fs, gs, o);
    }
    if Pending(c, gs, o) {
      PendingToo(c, gs, fs, o);
    }
  }

  lemma PendingToo(c: Aig, fs: seq<set<Cube>>, gs: seq<set<Cube>>, o: Obligation)
    requires |gs| == |fs| && Cubes(c, fs) && Cubes(c, gs) && IsCube(c, o.state.latches)
    requires forall i :: 0 <= i < |fs| ==> Left(c, gs[i]) == Left(c, fs[i])
    requires Pending(c, fs, o)
    ensures Pending(c, gs, o)
  {
    hide AllHold, Valuations;
    var e :| AllHold(e, o.state.latches) && Avoids(e, fs[o.level + 1]);
    var x := e * LatchVars(c);
    hide LatchVars, IsCube;
    LatchesMatter(c, e, o.state.latches);
    AvoidsByLatches(c, e, fs[o.level + 1]);
    hide Avoids;
    assert x in Left(c, fs[o.level + 1]);
    assert x in Left(c, gs[o.level + 1]);
  }

  ghost function Load(c: Aig, fs: seq<set<Cube>>, queue: set<Obligation>, marked: set<Obligation>): nat {
    Energy(Size(c, fs), |queue|, Total(c, fs, queue, Busy(queue, marked)), Cap(|fs|))
  }

  ghost predicate Parent(o: Obligation, p: Obligation) {
    p.state == o.state.next
  }

  ghost function Parents(queue: set<Obligation>, o: Obligation): set<Obligation> {
    set p | p in queue && Parent(o, p)
  }

  /** The obligation was blocked: it leaves or moves up. */
  lemma BlockFalls(c: Aig, fs: seq<set<Cube>>, gs: seq<set<Cube>>, queue: set<Obligation>, marked: set<Obligation>, o: Obligation, queue': set<Obligation>, marked': set<Obligation>)
    requires Stronger(fs, gs) && Cubes(c, fs) && Cubes(c, gs) && Linked(queue) && o in queue
    requires (forall p :: p in queue ==> IsCube(c, p.state.latches)) && 0 <= o.level <= Depth(fs) && Covered(gs, o.level + 1, o.state.latches)
    requires queue' == queue - {o} || exists i :: o.level < i <= Depth(fs) && queue' == queue - {o} + {Obligation(o.state, i, o.depth)}
    requires forall p :: p in queue && p in queue' ==> (p in marked' <==> p in marked)
    ensures Load(c, gs, queue', marked') < Load(c, fs, queue, marked)
  {
    hide Weight, Pending, Total, Size, IsCube, Cap, Energy, Linked;
    SizeShrinks(c, fs, gs);
    TotalCap(c, gs, queue', Busy(queue', marked'));
    assert |queue'| <= |queue| by {
      QueueSize(queue, queue', o);
    }
    if Size(c, gs) == Size(c, fs) {
      BlockLightens(c, fs, gs, queue, marked, o, queue', marked');
    }
    EnergyFalls(Size(c, fs), |queue|, Total(c, fs, queue, Busy(queue, marked)), Size(c, gs), |queue'|, Total(c, gs, queue', Busy(queue', marked')), Cap(|fs|));
  }

  lemma QueueSize(queue: set<Obligation>, queue': set<Obligation>, o: Obligation)
    requires o in queue && (queue' == queue - {o} || exists q :: queue' == queue - {o} + {q})
    ensures |queue'| <= |queue|
  {
    assert |queue - {o}| == |queue| - 1;
  }

  lemma BlockLightens(c: Aig, fs: seq<set<Cube>>, gs: seq<set<Cube>>, queue: set<Obligation>, marked: set<Obligation>, o: Obligation, queue': set<Obligation>, marked': set<Obligation>)
    requires Stronger(fs, gs) && Cubes(c, fs) && Cubes(c, gs) && Linked(queue) && o in queue && Size(c, gs) == Size(c, fs)
    requires (forall p :: p in queue ==> IsCube(c, p.state.latches)) && 0 <= o.level <= Depth(fs) && Covered(gs, o.level + 1, o.state.latches)
    requires queue' == queue - {o} || exists i :: o.level < i <= Depth(fs) && queue' == queue - {o} + {Obligation(o.state, i, o.depth)}
    requires forall p :: p in queue && p in queue' ==> (p in marked' <==> p in marked)
    ensures Total(c, gs, queue', Busy(queue', marked')) < Total(c, fs, queue, Busy(queue, marked))
  {
    SizeShrinks(c, fs, gs);
    var n, rest := |fs|, queue - {o};
    var busy, busy' := Busy(queue, marked), Busy(queue', marked');
    assert !Pending(c, fs, o) by {
      NotPending(c, fs, gs, o);
    }
    forall p | p in rest
      ensures Pending(c, gs, p) <==> Pending(c, fs, p)
    {
      SamePending(c, fs, gs, p);
    }
    BusyKept(queue, marked, o, queue', marked');
    OneParent(queue, o);
    hide Busy, Parents, Pending, Total, Left, Size, Covered, Stronger, Cubes, Linked;
    TotalFalls(c, fs, gs, rest, busy, busy', Parents(queue, o));
    TotalPick(c, fs, queue, busy, o);
    assert Weight(c, fs, o in busy, o) >= Room(n, o) * (6 * n);
    if queue' != rest {
      var i :| o.level < i <= Depth(fs) && queue' == rest + {Obligation(o.state, i, o.depth)};
      var q := Obligation(o.state, i, o.depth);
      NewInRest(queue, o, q);
      TotalAdd(c, gs, rest, busy', q);
      MovedWeight(c, gs, q in busy', o, q);
    } else {
      RoomLeft(n, o);
    }
  }

  lemma NotPending(c: Aig, fs: seq<set<Cube>>, gs: seq<set<Cube>>, o: Obligation)
    requires Stronger(fs, gs) && Cubes(c, fs) && Cubes(c, gs) && Size(c, gs) == Size(c, fs)
    requires 0 <= o.level <= Depth(fs) && Covered(gs, o.level + 1, o.state.latches)
    ensures !Pending(c, fs, o)
  {
    hide Size, Cubes;
    if Pending(c, fs, o) {
      var e :| AllHold(e, o.state.latches) && Avoids(e, fs[o.level + 1]);
      var r :| r in gs[o.level + 1] && r <= o.state.latches;
      assert AllHold(e, r);
      StateLost(c, fs, gs, o.level + 1, e);
    }
  }

  /** Only the obligation of the next state can become idle. */
  lemma BusyKept(queue: set<Obligation>, marked: set<Obligation>, o: Obligation, queue': set<Obligation>, marked': set<Obligation>)
    requires o in queue && queue - {o} <= queue' && forall p :: p in queue && p in queue' && p in marked && !Parent(o, p) ==> p in marked'
    ensures forall p :: p in queue - {o} && p in Busy(queue, marked) ==> p in Busy(queue', marked') || p in Parents(queue, o)
  {
    forall p | p in queue - {o} && p in Busy(queue, marked) && !Parent(o, p)
      ensures p in Busy(queue', marked')
    {
      if p !in marked {
        var q :| q in queue && q.state.next == p.state && q.level == p.level - 1;
        assert q != o;
        assert q in queue';
      }
    }
  }

  lemma OneParent(queue: set<Obligation>, o: Obligation)
    requires Linked(queue)
    ensures forall x, y :: x in Parents(queue, o) && y in Parents(queue, o) ==> x == y
  {
  }

  lemma NewInRest(queue: set<Obligation>, o: Obligation, q: Obligation)
    requires Linked(queue) && o in queue && q.state == o.state
    ensures q !in queue - {o}
  {
  }

  lemma RoomLeft(n: nat, o: Obligation)
    requires 0 <= o.level < n - 1
    ensures Room(n, o) * (6 * n) >= 6 * n
  {
    MulMono(1, Room(n, o), 6 * n);
  }

  /** Moving up makes an obligation lighter by more than what its successor can gain. */
  lemma MovedWeight(c: Aig, fs: seq<set<Cube>>, busy: bool, o: Obligation, q: Obligation)
    requires 0 <= o.level < q.level <= Depth(fs)
    ensures Weight(c, fs, busy, q) + 2 * |fs| < Room(|fs|, o) * (6 * |fs|)
  {
    hide Pending;
    var n := |fs|;
    MulMono(Room(n, q) + 1, Room(n, o), 6 * n);
    assert (Room(n, q) + 1) * (6 * n) == Room(n, q) * (6 * n) + 6 * n;
    RoomLeft(n, q);
  }

  /** The obligation was given up and its successor marked. */
  lemma DiscardFalls(c: Aig, fs: seq<set<Cube>>, queue: set<Obligation>, marked: set<Obligation>, o: Obligation, marked': set<Obligation>)
    requires Linked(queue) && o in queue && 0 <= o.level <= Depth(fs)
    requires forall p :: p in queue && p != o && (p in marked || Parent(o, p)) ==> p in marked'
    ensures Load(c, fs, queue - {o}, marked') < Load(c, fs, queue, marked)
  {
    var rest := queue - {o};
    var busy, busy' := Busy(queue, marked), Busy(rest, marked');
    BusyKept(queue, marked, o, rest, marked');
    assert forall p :: p in rest && Parent(o, p) ==> p in busy';
    hide Busy, Weight, Pending, Total, Size, Energy, Linked, Parent, Cap;
    TotalFalls(c, fs, fs, rest, busy, busy', {});
    TotalPick(c, fs, queue, busy, o);
    WeightPositive(c, fs, o in busy, o);
    TotalCap(c, fs, rest, busy');
    assert |rest| == |queue| - 1;
    EnergyFalls(Size(c, fs), |queue|, Total(c, fs, queue, busy), Size(c, fs), |rest|, Total(c, fs, rest, busy'), Cap(|fs|));
  }

  lemma WeightPositive(c: Aig, fs: seq<set<Cube>>, busy: bool, o: Obligation)
    requires 0 <= o.level <= Depth(fs)
    ensures Weight(c, fs, busy, o) > 0
  {
    RoomLeft(|fs|, o);
  }

  /** A predecessor was queued one frame below. */
  lemma LowerFalls(c: Aig, fs: seq<set<Cube>>, queue: set<Obligation>, marked: set<Obligation>, o: Obligation, q: Obligation, marked': set<Obligation>)
    requires Linked(queue) && IsFirst(queue, o) && o !in marked && 1 <= o.level <= Depth(fs)
    requires q.state.next == o.state && q.level == o.level - 1 && Pending(c, fs, q)
    requires forall p :: p in queue ==> (p in marked' <==> p in marked) && p.state != q.state && p.state.next != q.state
    requires q.state.next != q.state
    ensures Load(c, fs, queue + {q}, marked') < Load(c, fs, queue, marked)
  {
    var n, rest, more := |fs|, queue - {o}, queue + {q};
    var busy, busy' := Busy(queue, marked), Busy(more, marked');
    assert o !in busy by {
      if p :| p in queue && p.state.next == o.state && p.level == o.level - 1 {
        assert false;
      }
    }
    assert o in busy';
    forall p | p in rest && p in busy
      ensures p in busy'
    {
      if p !in marked {
        var r :| r in queue && r.state.next == p.state && r.level == p.level - 1;
        assert r in more;
      }
    }
    hide Busy, Pending, Total, Size, Energy, Linked, Cap, IsFirst;
    TotalFalls(c, fs, fs, rest, busy, busy', {});
    TotalPick(c, fs, queue, busy, o);
    assert q !in queue;
    TotalAdd(c, fs, queue, busy', q);
    TotalPick(c, fs, queue, busy', o);
    LowerWeight(c, fs, o, q, q in busy');
    TotalCap(c, fs, more, busy');
    EnergyFalls(Size(c, fs), |queue|, Total(c, fs, queue, busy), Size(c, fs), |more|, Total(c, fs, more, busy'), Cap(n));
  }

  lemma LowerWeight(c: Aig, fs: seq<set<Cube>>, o: Obligation, q: Obligation, busy: bool)
    requires 1 <= o.level <= Depth(fs) && q.level == o.level - 1 && Pending(c, fs, q)
    ensures Weight(c, fs, true, o) + Weight(c, fs, busy, q) < Weight(c, fs, false, o)
  {
    assert 2 * q.level + 2 == 2 * o.level;
  }
}
