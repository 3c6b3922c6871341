/** Incremental solvers with activation literals.  A temporary clause is guarded by a fresh
    variable that only the current query assumes.  Frame solvers never retire it (the base-class
    hooks do nothing); the lifting solver retires the last one before the next query. */
module Activation {
  import opened Cnf

  datatype Solver = Solver(clauses: set<Clause>, nv: int, clearFlag: bool)

  function Fresh(): Solver {
    Solver({}, 0, false)
  }

  /** Adding a clause literal by literal keeps track of the largest variable. */
  method AddClause(s: Solver, cl: Clause) returns (t: Solver)
    ensures t.clauses == s.clauses + {cl} && t.clearFlag == s.clearFlag
    ensures s.nv <= t.nv && (forall l :: l in cl ==> Abs(l) <= t.nv)
    ensures t.nv == s.nv || exists l :: l in cl && Abs(l) == t.nv
  {
    var nv := s.nv;
    var rest := cl;
    while rest != {}
      invariant rest <= cl && s.nv <= nv
      invariant forall l :: l in cl - rest ==> Abs(l) <= nv
      invariant nv == s.nv || exists l :: l in cl && Abs(l) == nv
      decreases rest
    {
      var l := Pick(rest);
      if nv < Abs(l) {
        nv := Abs(l);
      }
      rest := rest - {l};
    }
    t := Solver(s.clauses + {cl}, nv, s.clearFlag);
  }

  /** The permanent clauses are `kernel`, over variables up to `lim`; every other clause carries a
      negated activation variable. */
  ghost predicate Loaded(s: Solver, kernel: set<Clause>, lim: int) {
    && kernel <= s.clauses
    && AllWithin(kernel, lim)
    && 0 <= lim <= s.nv
    && AllWithin(s.clauses, s.nv)
    && (forall cl :: cl in s.clauses ==> cl in kernel || Guarded(cl, lim))
  }

  ghost predicate Guarded(cl: Clause, lim: int) {
    exists l :: l in cl && l + lim < 0
  }

  lemma WithinLarger(f: set<Clause>, n: int, k: int)
    requires AllWithin(f, n) && n <= k
    ensures AllWithin(f, k)
  {
  }

  method AddPermanent(s: Solver, cl: Clause, ghost kernel: set<Clause>, ghost lim: int) returns (t: Solver)
    requires Loaded(s, kernel, lim) && Within(cl, lim)
    ensures Loaded(t, kernel + {cl}, lim) && t.nv == s.nv && t.clearFlag == s.clearFlag
  {
    t := AddClause(s, cl);
  }

  lemma KernelAndQuery(s: Solver, kernel: set<Clause>, lim: int, d: Clause, act: int, m: set<int>)
    requires Loaded(s, kernel, lim) && act == s.nv + 1
    requires Models(m, s.clauses + {d + {-act}}) && act in m
    ensures Models(m, kernel) && Satisfies(m, d)
  {
    var cl := d + {-act};
    assert Satisfies(m, cl);
    var l :| l in cl && Holds(m, l);
    assert l in d;
  }

  /** Earlier guarded clauses are inert: a model of the kernel and of the temporary clause
      extends to the whole solver by switching on the current activation variable alone. */
  lemma QueryModel(s: Solver, kernel: set<Clause>, lim: int, d: Clause, assumed: set<int>, act: int, m: set<int>)
    requires Loaded(s, kernel, lim) && act == s.nv + 1 && Within(d, lim) && Within(assumed, lim)
    requires Models(m, kernel) && Satisfies(m, d) && AllHold(m, assumed) && 0 <= lim
    ensures var w := (m * UpTo(lim)) + {act};
      Models(w, s.clauses + {d + {-act}}) && AllHold(w, assumed + {act})
  {
    var w := (m * UpTo(lim)) + {act};
    ModelsAgree(m, w, kernel, lim);
    SatisfiesAgree(m, w, d, lim);
    forall cl | cl in s.clauses
      ensures Satisfies(w, cl)
    {
      if cl !in kernel {
        var l :| l in cl && l + lim < 0;
        assert Within(cl, s.nv);
        assert Holds(w, l);
      }
    }
    var cur := d + {-act};
    var l :| l in d && Holds(w, l);
    assert l in cur;
    assert forall k :: k in assumed ==> (Holds(m, k) <==> Holds(w, k));
  }

  /** One query under a temporary clause `d`: the verdict is that of the kernel with `d` alone. */
  method Query(s: Solver, d: Clause, assumed: set<int>, ghost kernel: set<Clause>, ghost lim: nat)
    returns (t: Solver, a: Answer)
    requires Loaded(s, kernel, lim) && Within(d, lim) && Within(assumed, lim)
    ensures Loaded(t, kernel, lim) && t.nv == s.nv + 1 && t.clearFlag == s.clearFlag
    ensures t.clauses == s.clauses + {d + {-(s.nv + 1)}}
    ensures a.Sat? ==> Models(a.model, kernel) && Satisfies(a.model, d) && AllHold(a.model, assumed)
    ensures a.Unsat? ==> a.core <= assumed
    ensures a.Unsat? ==> forall m :: Models(m, kernel) && Satisfies(m, d) ==> !AllHold(m, a.core)
  {
    var act := s.nv + 1;
    t := AddClause(s, d + {-act});
    assert -act in d + {-act};
    WithinLarger(s.clauses, s.nv, t.nv);
    assert Guarded(d + {-act}, lim);
    var r := Solve(t.clauses, assumed + {act}, t.nv);
    match r
    case Sat(m) =>
      KernelAndQuery(s, kernel, lim, d, act, m);
      a := r;
    case Unsat(core) =>
      a := Unsat(core - {act});
      forall m | Models(m, kernel) && Satisfies(m, d)
        ensures !AllHold(m, core - {act})
      {
        assert core <= core - {act} + {act};
        if AllHold(m, core - {act}) {
          QueryModel(s, kernel, lim, d, core - {act}, act, m);
        }
      }
  }

  /** A query without temporary clause, as used for initial states and bad successors. */
  method PlainQuery(s: Solver, assumed: set<int>, ghost kernel: set<Clause>, ghost lim: nat) returns (a: Answer)
    requires Loaded(s, kernel, lim) && Within(assumed, lim)
    ensures a.Sat? ==> Models(a.model, kernel) && AllHold(a.model, assumed)
    ensures a.Unsat? ==> a.core <= assumed
    ensures a.Unsat? ==> forall m :: Models(m, kernel) ==> !AllHold(m, a.core)
  {
    a := Solve(s.clauses, assumed, s.nv);
    if a.Unsat? {
      forall m | Models(m, kernel)
        ensures !AllHold(m, a.core)
      {
        var w := m * UpTo(lim);
        assert Models(w, s.clauses) by {
          ModelsAgree(m, w, kernel, lim);
          forall cl | cl in s.clauses
            ensures Satisfies(w, cl)
          {
            if cl !in kernel {
              var x :| x in cl && x + lim < 0;
              assert Holds(w, x);
            }
          }
        }
        assert forall k :: k in assumed ==> (Holds(m, k) <==> Holds(w, k));
      }
    }
  }

  function SetClearAct(s: Solver): Solver {
    s.(clearFlag := true)
  }

  /** Before the next lifting query the activation variable of the last one is switched off for
      good; it is the largest variable, and no other clause is touched. */
  method ClearAct(s: Solver, ghost kernel: set<Clause>, ghost lim: nat) returns (t: Solver)
    requires Loaded(s, kernel, lim) && (s.clearFlag ==> lim < s.nv)
    ensures Loaded(t, kernel, lim) && !t.clearFlag && t.nv == s.nv
    ensures t.clauses == if s.clearFlag then s.clauses + {Unit(-s.nv)} else s.clauses
  {
    t := s;
    if s.clearFlag {
      t := AddClause(s, Unit(-s.nv));
      assert -s.nv in Unit(-s.nv);
    }
    t := t.(clearFlag := false);
  }
}
