/** The online proof checker: unit propagation with watched literals over the clauses added so far.
    A derived clause is accepted if assuming its negation leads to a conflict. */
module Checker {
  import opened Cnf
  import opened Extension
  import opened Watches
  import opened LitOrder
  import opened ClauseTable

  // ----- meaning -----

  /** Stored clauses, garbage or not, follow from the original ones. */
  ghost predicate StoredFollow(originals: set<Clause>, lits: map<int, seq<int>>) {
    forall id, m :: id in lits && Models(m, originals) ==> Satisfies(m, Lits(lits[id]))
  }

  /** The trail follows from the original clauses and the assumptions. */
  ghost predicate Forced(originals: set<Clause>, assumed: set<int>, trail: seq<int>) {
    forall m :: Models(m, originals) && AllHold(m, assumed) ==> AllHold(m, Lits(trail))
  }

  ghost predicate Refuted(originals: set<Clause>, assumed: set<int>) {
    forall m :: Models(m, originals) ==> !AllHold(m, assumed)
  }

  ghost predicate FalseExcept(trail: seq<int>, c: seq<int>, x: int) {
    forall l :: l in c && l != x ==> l != 0 && IsFalse(trail, l)
  }

  lemma UnitForces(originals: set<Clause>, assumed: set<int>, lits: map<int, seq<int>>, trail: seq<int>, id: int, x: int)
    requires StoredFollow(originals, lits) && Forced(originals, assumed, trail) && id in lits && FalseExcept(trail, lits[id], x)
    ensures Forced(originals, assumed, trail + [x])
  {
    hide Models;
    forall m | Models(m, originals) && AllHold(m, assumed)
      ensures AllHold(m, Lits(trail + [x]))
    {
      LitsAdd(trail, x);
      forall l | l in lits[id] && l != x
        ensures !Holds(m, l)
      {
        assert -l in Lits(trail);
      }
      var l :| l in Lits(lits[id]) && Holds(m, l);
    }
  }

  lemma ConflictRefutes(originals: set<Clause>, assumed: set<int>, lits: map<int, seq<int>>, trail: seq<int>, id: int)
    requires StoredFollow(originals, lits) && Forced(originals, assumed, trail) && id in lits && FalseExcept(trail, lits[id], 0)
    requires 0 !in lits[id]
    ensures Refuted(originals, assumed)
  {
    hide Models;
    forall m | Models(m, originals)
      ensures !AllHold(m, assumed)
    {
      if AllHold(m, assumed) {
        forall l | l in lits[id]
          ensures !Holds(m, l)
        {
          assert -l in Lits(trail);
        }
      }
    }
  }

  // ----- one watch list -----

  /** While the list of the newly false literal `w` is visited: clauses watched by `w` are satisfied
      or still to come. */
  ghost predicate Pending(trail: seq<int>, s: Store, w: int, rest: seq<Watch>, b: int, pp: int) {
    forall id :: id in s.live ==> PendingAt(trail, s, w, rest, b, pp, id)
  }

  ghost predicate PendingAt(trail: seq<int>, s: Store, w: int, rest: seq<Watch>, b: int, pp: int, id: int) {
    && id in s.lits && Fine(trail, s.lits[id], b, |trail|) && Fine(trail, s.lits[id], pp, pp)
    && (s.lits[id][0] == w || s.lits[id][1] == w ==> SatBefore(trail, s.lits[id], |trail|) || Mentions(rest, id))
  }

  lemma MentionsRest(ws: seq<Watch>, i: int, id: int)
    requires 0 <= i < |ws| && Mentions(ws[i..], id)
    ensures ws[i].id == id || Mentions(ws[i + 1..], id)
  {
    var k :| 0 <= k < |ws[i..]| && ws[i..][k].id == id;
    if k > 0 {
      assert ws[i + 1..][k - 1].id == id;
    }
  }

  /** The visited clause is satisfied or garbage: go on. */
  lemma PendingNext(trail: seq<int>, s: Store, t: Store, w: int, ws: seq<Watch>, i: int, b: int, pp: int)
    requires 0 <= i < |ws| && Pending(trail, s, w, ws[i..], b, pp) && t.lits == s.lits && t.live == s.live
    requires ws[i].id in s.live && ws[i].id in s.lits ==> SatBefore(trail, s.lits[ws[i].id], |trail|)
    ensures Pending(trail, t, w, ws[i + 1..], b, pp)
  {
    hide Fine, SatBefore;
    forall id | id in t.live
      ensures PendingAt(trail, t, w, ws[i + 1..], b, pp, id)
    {
      assert PendingAt(trail, s, w, ws[i..], b, pp, id);
      if Mentions(ws[i..], id) {
        MentionsRest(ws, i, id);
      }
    }
  }

  lemma PendingExtends(trail: seq<int>, x: int, s: Store, w: int, rest: seq<Watch>, b: int, pp: int)
    requires Pending(trail, s, w, rest, b, pp) && 0 <= b <= |trail| && 0 <= pp <= |trail|
    ensures Pending(trail + [x], s, w, rest, b, pp)
  {
    hide Fine, SatBefore;
    forall id | id in s.live
      ensures PendingAt(trail + [x], s, w, rest, b, pp, id)
    {
      assert PendingAt(trail, s, w, rest, b, pp, id);
      FineExtends(trail, x, s.lits[id], b, |trail|);
      FineExtends(trail, x, s.lits[id], pp, pp);
      SatExtends(trail, x, s.lits[id], |trail|);
    }
  }

  /** A watch moved to a literal that is not false. */
  lemma PendingMoved(trail: seq<int>, s: Store, id: int, w: int, other: int, k: int, ws: seq<Watch>, i: int, rest: seq<Watch>, b: int, pp: int)
    requires Movable(s, id, w, other, k, rest) && 0 <= i < |ws| && Pending(trail, s, w, ws[i..], b, pp) && ws[i].id == id
    requires 0 <= b <= |trail| && 0 <= pp <= |trail| && !IsFalse(trail, s.lits[id][k])
    ensures Pending(trail, MoveWatch(s, id, w, other, k, rest), w, ws[i + 1..], b, pp)
  {
    hide Fine, SatBefore, StoreOk, Removes;
    var t := MoveWatch(s, id, w, other, k, rest);
    forall x | x in t.live
      ensures PendingAt(trail, t, w, ws[i + 1..], b, pp, x)
    {
      assert PendingAt(trail, s, w, ws[i..], b, pp, x);
      if x == id {
        MovedFine(trail, s.lits[id], other, w, k, b, |trail|);
        MovedFine(trail, s.lits[id], other, w, k, pp, pp);
        MovedAway(s.lits[id], other, w, k);
      } else if Mentions(ws[i..], x) {
        MentionsRest(ws, i, x);
      }
    }
  }

  lemma MovedFine(trail: seq<int>, c: seq<int>, other: int, w: int, k: int, b: int, e: int)
    requires ClauseOk(c) && 2 <= k < |c| && Pair(c, other, w) && Fine(trail, c, b, e) && !IsFalse(trail, c[k])
    ensures Fine(trail, Moved(c, other, w, k), b, e)
  {
    MovedLits(c, other, w, k);
    var d := Moved(c, other, w, k);
    assert d[0] == other && d[1] == c[k];
    assert c[..2] == [c[0], c[1]];
    FinePermuted(trail, c, d, b, e);
  }

  lemma MovedAway(c: seq<int>, other: int, w: int, k: int)
    requires ClauseOk(c) && 2 <= k < |c| && Pair(c, other, w)
    ensures Moved(c, other, w, k)[0] != w && Moved(c, other, w, k)[1] != w
  {
    assert c[0] != c[1] && c[k] != c[0] && c[k] != c[1];
  }

  /** Everything visited: the clauses are fine up to and including the literal just processed. */
  lemma PendingDone(trail: seq<int>, s: Store, w: int, n: int, pp: int)
    requires Pending(trail, s, w, [], n - 1, pp) && 1 <= n <= |trail| && trail[n - 1] == -w
    ensures AllFine(trail, s, n, |trail|)
  {
    forall id | id in s.live
      ensures id in s.lits && Fine(trail, s.lits[id], n, |trail|)
    {
      assert PendingAt(trail, s, w, [], n - 1, pp, id);
      assert !Mentions([], id);
      ExcusedStep(trail, s.lits[id], s.lits[id][0], w, n);
      ExcusedStep(trail, s.lits[id], s.lits[id][1], w, n);
    }
  }

  lemma ExcusedStep(trail: seq<int>, c: seq<int>, v: int, w: int, n: int)
    requires 1 <= n <= |trail| && trail[n - 1] == -w && Excused(trail, c, v, n - 1, |trail|) && (v == w ==> SatBefore(trail, c, |trail|))
    ensures Excused(trail, c, v, n, |trail|)
  {
    if TrueBefore(trail, -v, n) && v != w {
      var i :| 0 <= i < n && i < |trail| && trail[i] == -v;
      assert i != n - 1;
      assert TrueBefore(trail, -v, n - 1);
    }
  }

  /** Starting the list of `w`: all its live clauses are mentioned there. */
  lemma PendingStart(trail: seq<int>, s: Store, w: int, b: int, pp: int)
    requires StoreOk(s) && AllFine(trail, s, b, |trail|) && AllFine(trail, s, pp, pp)
    ensures Pending(trail, s, w, ListOf(s, w), b, pp)
  {
    hide EntriesOk, Unique, Fine;
    forall id | id in s.live
      ensures PendingAt(trail, s, w, ListOf(s, w), b, pp, id)
    {
      assert Watched(s, id);
    }
  }

  // ----- rewriting the visited list -----

  lemma SplitList(kept: seq<Watch>, ws: seq<Watch>, i: int)
    requires 0 <= i < |ws|
    ensures kept + ws[i..] == kept + [ws[i]] + ws[i + 1..]
    ensures (kept + ws[i..])[|kept|] == ws[i]
  {
  }

  /** Keeping the visited entry, possibly with another blocking literal. */
  lemma KeepEntry(s: Store, w: int, kept: seq<Watch>, ws: seq<Watch>, i: int, blit: int)
    requires StoreOk(s) && 0 <= i < |ws| && ListOf(s, w) == kept + ws[i..]
    requires ws[i].id in s.lits && blit in s.lits[ws[i].id] && blit != w
    ensures StoreOk(WithList(s, w, kept + [ws[i].(blit := blit)] + ws[i + 1..]))
  {
    hide ClauseOk, Watched;
    var old', e := ListOf(s, w), ws[i].(blit := blit);
    var new' := kept + [e] + ws[i + 1..];
    SplitList(kept, ws, i);
    DistinctOf(s, w);
    assert |new'| == |old'| && forall k :: 0 <= k < |new'| ==> new'[k].id == old'[k].id;
    forall k | 0 <= k < |new'|
      ensures EntryOk(s, w, new'[k])
    {
      assert EntryOk(s, w, old'[k]);
    }
    SameMentions(old', new');
    WithListOk(s, w, new');
  }

  lemma DistinctOf(s: Store, l: int)
    requires Unique(s)
    ensures DistinctIds(ListOf(s, l))
  {
  }

  lemma SameMentions(xs: seq<Watch>, ys: seq<Watch>)
    requires |ys| == |xs| && forall k :: 0 <= k < |ys| ==> ys[k].id == xs[k].id
    ensures forall id :: Mentions(xs, id) ==> Mentions(ys, id)
  {
    forall id | Mentions(xs, id)
      ensures Mentions(ys, id)
    {
      var k :| 0 <= k < |xs| && xs[k].id == id;
      assert ys[k].id == id;
    }
  }

  lemma DropEntry(s: Store, w: int, kept: seq<Watch>, ws: seq<Watch>, i: int)
    requires StoreOk(s) && 0 <= i < |ws| && ListOf(s, w) == kept + ws[i..]
    ensures Removes(ListOf(s, w), kept + ws[i + 1..], ws[i].id)
  {
    hide ClauseOk, Watched, EntriesOk;
    var xs, ys := ListOf(s, w), kept + ws[i + 1..];
    SplitList(kept, ws, i);
    DistinctOf(s, w);
    forall k | 0 <= k < |ys|
      ensures ys[k] == xs[if k < |kept| then k else k + 1]
    {
    }
    forall x | x != ws[i].id && Mentions(xs, x)
      ensures Mentions(ys, x)
    {
      var k :| 0 <= k < |xs| && xs[k].id == x;
      var j := if k < |kept| then k else k - 1;
      assert ys[j].id == x;
    }
  }

  /** Dropping the entry of a garbage clause. */
  lemma DropGarbage(s: Store, w: int, kept: seq<Watch>, ws: seq<Watch>, i: int)
    requires StoreOk(s) && 0 <= i < |ws| && ListOf(s, w) == kept + ws[i..] && ws[i].id !in s.live
    ensures StoreOk(WithList(s, w, kept + ws[i + 1..]))
  {
    hide ClauseOk, Watched;
    DropEntry(s, w, kept, ws, i);
    var xs, ys := ListOf(s, w), kept + ws[i + 1..];
    forall k | 0 <= k < |ys|
      ensures EntryOk(s, w, ys[k])
    {
      assert ys[k] in xs;
      var j :| 0 <= j < |xs| && xs[j] == ys[k];
      assert EntryOk(s, w, xs[j]);
    }
    WithListOk(s, w, ys);
  }

  // ----- the checker -----

  /** All literals mention variables up to `n`. */
  ghost predicate Bounded(n: int, trail: seq<int>, lits: map<int, seq<int>>) {
    (forall l :: l in trail ==> Abs(l) <= n) && forall id, l :: id in lits && l in lits[id] ==> Abs(l) <= n
  }

  ghost predicate AllFine(trail: seq<int>, s: Store, b: int, e: int) {
    forall id :: id in s.live ==> id in s.lits && Fine(trail, s.lits[id], b, e)
  }

  lemma AllFinePending(trail: seq<int>, s: Store, w: int, rest: seq<Watch>, b: int, pp: int)
    requires Pending(trail, s, w, rest, b, pp)
    ensures AllFine(trail, s, pp, pp) && AllFine(trail, s, b, |trail|)
  {
    hide Fine, SatBefore, Mentions;
    forall id | id in s.live
      ensures id in s.lits && Fine(trail, s.lits[id], pp, pp) && Fine(trail, s.lits[id], b, |trail|)
    {
      assert PendingAt(trail, s, w, rest, b, pp, id);
    }
  }

  lemma TrailMore(trail: seq<int>, x: int)
    requires TrailOk(trail) && x != 0 && !IsTrue(trail, x) && !IsFalse(trail, x)
    ensures TrailOk(trail + [x])
  {
    var t := trail + [x];
    forall i, j | 0 <= i < j < |t|
      ensures t[i] != t[j] && t[i] != -t[j]
    {
      assert t[i] == trail[i] && trail[i] in trail;
      if j == |trail| {
        assert t[j] == x;
      }
    }
  }

  /** The other literals of a clause of two. */
  lemma BinaryFalse(trail: seq<int>, c: seq<int>, w: int, blit: int)
    requires ClauseOk(c) && |c| == 2 && w in c && blit in c && blit != w && IsFalse(trail, w)
    ensures FalseExcept(trail, c, blit) && (IsFalse(trail, blit) ==> FalseExcept(trail, c, 0))
  {
  }

  /** Finds a literal from position 2 on that is not false. */
  method Replacement(trail: seq<int>, c: seq<int>) returns (k: int)
    requires |c| >= 2
    ensures 2 <= k <= |c| && (k < |c| ==> !IsFalse(trail, c[k]))
    ensures k == |c| ==> forall j :: 2 <= j < |c| ==> IsFalse(trail, c[j])
  {
    k := 2;
    while k < |c|
      invariant 2 <= k <= |c| && forall j :: 2 <= j < k ==> IsFalse(trail, c[j])
    {
      if !IsFalse(trail, c[k]) {
        return;
      }
      k := k + 1;
    }
  }

  lemma RestFalse(trail: seq<int>, c: seq<int>, other: int, w: int)
    requires ClauseOk(c) && Pair(c, other, w) && IsFalse(trail, w) && forall j :: 2 <= j < |c| ==> IsFalse(trail, c[j])
    ensures FalseExcept(trail, c, other) && (IsFalse(trail, other) ==> FalseExcept(trail, c, 0))
  {
    forall l | l in c && l != other
      ensures l != 0 && IsFalse(trail, l)
    {
      var j :| 0 <= j < |c| && c[j] == l;
    }
  }

  /** The same clauses, with literals in a possibly different order. */
  ghost predicate SameText(a: map<int, seq<int>>, b: map<int, seq<int>>) {
    && (forall id :: id in a <==> id in b)
    && (forall id :: id in a && id in b ==> Lits(b[id]) == Lits(a[id]) && |b[id]| == |a[id]|)
  }

  lemma SameTextTrans(a: map<int, seq<int>>, b: map<int, seq<int>>, c: map<int, seq<int>>)
    requires SameText(a, b) && SameText(b, c)
    ensures SameText(a, c)
  {
    hide Lits;
  }

  lemma {:induction false} TrailBound(trail: seq<int>, n: int)
    requires TrailOk(trail) && n >= 0 && forall l :: l in trail ==> Abs(l) <= n
    ensures |trail| <= n
  {
    var vars := set i | 0 <= i < |trail| :: Abs(trail[i]);
    VariableCount(trail);
    forall v | v in vars
      ensures 1 <= v <= n
    {
      var i :| 0 <= i < |trail| && Abs(trail[i]) == v;
      assert trail[i] in trail;
    }
    BoundedSize(vars, n);
  }

  lemma {:induction false} VariableCount(trail: seq<int>)
    requires TrailOk(trail)
    ensures |(set i | 0 <= i < |trail| :: Abs(trail[i]))| == |trail|
  {
    if trail != [] {
      var n := |trail| - 1;
      var rest := trail[..n];
      VariableCount(rest);
      var a, b := set i | 0 <= i < |rest| :: Abs(rest[i]), set i | 0 <= i < |trail| :: Abs(trail[i]);
      assert forall i :: 0 <= i < n ==> rest[i] == trail[i];
      assert b == a + {Abs(trail[n])};
      assert Abs(trail[n]) !in a;
    }
  }

  lemma {:induction false} BoundedSize(vars: set<nat>, n: nat)
    requires forall v :: v in vars ==> 1 <= v <= n
    ensures |vars| <= n
  {
    if n == 0 {
      if |vars| > 0 {
        var v := Member(vars);
        assert false;
      }
    } else {
      BoundedSize(vars - {n}, n - 1);
    }
  }

  // ----- what is kept -----

  ghost function Copies(lits: map<int, seq<int>>, live: set<int>, cl: Clause): set<int> {
    set id | id in live && id in lits && Lits(lits[id]) == cl
  }

  ghost predicate RetainedAt(n: nat, trail: seq<int>, lits: map<int, seq<int>>, live: set<int>, cl: Clause) {
    Redundant(trail, cl) || n <= |Copies(lits, live, cl)|
  }

  /** Each clause added and not deleted is true on the trail or has a live copy for each addition. */
  ghost predicate Retained(kept: multiset<Clause>, trail: seq<int>, lits: map<int, seq<int>>, live: set<int>) {
    forall cl :: cl in kept ==> RetainedAt(kept[cl], trail, lits, live, cl)
  }

  /** Longer trails and reordered literals lose nothing. */
  lemma RetainedSame(kept: multiset<Clause>, trail: seq<int>, t: seq<int>, a: map<int, seq<int>>, b: map<int, seq<int>>, live: set<int>)
    requires Retained(kept, trail, a, live) && trail <= t && SameText(a, b)
    ensures Retained(kept, t, b, live)
  {
    hide Lits;
    forall cl | cl in kept
      ensures RetainedAt(kept[cl], t, b, live, cl)
    {
      assert RetainedAt(kept[cl], trail, a, live, cl);
      forall id
        ensures id in Copies(a, live, cl) <==> id in Copies(b, live, cl)
      {
        assert id in a && id in b ==> Lits(b[id]) == Lits(a[id]);
      }
      assert Copies(a, live, cl) == Copies(b, live, cl);
    }
  }

  lemma RetainedRedundant(kept: multiset<Clause>, trail: seq<int>, lits: map<int, seq<int>>, live: set<int>, cl: Clause)
    requires Retained(kept, trail, lits, live) && Redundant(trail, cl)
    ensures Retained(kept + multiset{cl}, trail, lits, live) && Retained(kept - multiset{cl}, trail, lits, live)
  {
    hide Redundant, Copies;
    forall d | d in kept + multiset{cl}
      ensures RetainedAt((kept + multiset{cl})[d], trail, lits, live, d)
    {
      assert d != cl ==> RetainedAt(kept[d], trail, lits, live, d);
    }
    forall d | d in kept - multiset{cl}
      ensures RetainedAt((kept - multiset{cl})[d], trail, lits, live, d)
    {
      assert d != cl ==> RetainedAt(kept[d], trail, lits, live, d);
    }
  }

  lemma CopiesAdded(lits: map<int, seq<int>>, live: set<int>, id: int, d: seq<int>, cl: Clause)
    requires id !in lits
    ensures id !in Copies(lits, live, cl)
    ensures Copies(lits[id := d], live + {id}, cl) == if Lits(d) == cl then Copies(lits, live, cl) + {id} else Copies(lits, live, cl)
  {
    hide Lits;
    var more := lits[id := d];
    forall x
      ensures x in Copies(more, live + {id}, cl) <==> x in Copies(lits, live, cl) || (x == id && Lits(d) == cl)
    {
      assert x != id && x in lits ==> more[x] == lits[x];
    }
  }

  lemma RetainedAdded(kept: multiset<Clause>, trail: seq<int>, lits: map<int, seq<int>>, live: set<int>, id: int, d: seq<int>)
    requires Retained(kept, trail, lits, live) && id !in lits
    ensures Retained(kept + multiset{Lits(d)}, trail, lits[id := d], live + {id})
  {
    hide Redundant, Lits, Copies;
    var more := kept + multiset{Lits(d)};
    forall cl | cl in more
      ensures RetainedAt(more[cl], trail, lits[id := d], live + {id}, cl)
    {
      CopiesAdded(lits, live, id, d, cl);
      assert cl in kept ==> RetainedAt(kept[cl], trail, lits, live, cl);
    }
  }

  lemma RetainedRetired(kept: multiset<Clause>, trail: seq<int>, lits: map<int, seq<int>>, live: set<int>, id: int)
    requires Retained(kept, trail, lits, live) && id in live && id in lits
    ensures Retained(kept - multiset{Lits(lits[id])}, trail, lits, live - {id})
    ensures Redundant(trail, Lits(lits[id])) ==> Retained(kept, trail, lits, live - {id})
  {
    hide Redundant, Lits;
    var c := Lits(lits[id]);
    forall cl | cl in kept
      ensures RetainedAt((kept - multiset{c})[cl], trail, lits, live - {id}, cl)
      ensures cl != c ==> RetainedAt(kept[cl], trail, lits, live - {id}, cl)
    {
      assert RetainedAt(kept[cl], trail, lits, live, cl);
      var was, now := Copies(lits, live, cl), Copies(lits, live - {id}, cl);
      assert now == was - {id} && (cl != c ==> now == was);
      assert |now| >= |was| - 1 by {
        assert id in was ==> was == now + {id};
      }
    }
  }

  /** Freeing the clauses that are not live. */
  lemma RetainedFreed(kept: multiset<Clause>, trail: seq<int>, lits: map<int, seq<int>>, live: set<int>)
    requires Retained(kept, trail, lits, live)
    ensures Retained(kept, trail, Restricted(lits, live), live)
  {
    hide Redundant, Lits;
    var now := Restricted(lits, live);
    forall cl | cl in kept
      ensures RetainedAt(kept[cl], trail, now, live, cl)
    {
      assert RetainedAt(kept[cl], trail, lits, live, cl);
      assert Copies(lits, live, cl) == Copies(now, live, cl);
    }
  }

  /** A kept clause is never missing. */
  lemma KeptFound(kept: multiset<Clause>, trail: seq<int>, lits: map<int, seq<int>>, live: set<int>, cl: Clause)
    requires Retained(kept, trail, lits, live)
    ensures cl in kept ==> Redundant(trail, cl) || Present(lits, live, cl)
  {
    hide Redundant, Lits;
    if cl in kept {
      assert RetainedAt(kept[cl], trail, lits, live, cl);
      if |Copies(lits, live, cl)| > 0 {
        var id := Member(Copies(lits, live, cl));
      }
    }
  }

  ghost predicate Present(lits: map<int, seq<int>>, live: set<int>, cl: Clause) {
    exists id :: id in live && id in lits && Lits(lits[id]) == cl
  }

  /** The live clauses with no true literal. */
  ghost function Unsatisfied(lits: map<int, seq<int>>, live: set<int>, trail: seq<int>): set<int> {
    set id | id in live && id in lits && !TrueOn(trail, lits[id])
  }

  /** The clauses that stay live when garbage is collected, or when it is not. */
  ghost function Left(lits: map<int, seq<int>>, live: set<int>, trail: seq<int>, collect: bool): set<int> {
    if collect then Unsatisfied(lits, live, trail) else live
  }

  /** One clause with these literals was live and is no longer. */
  ghost predicate OneRemoved(lits: map<int, seq<int>>, live: set<int>, cl: Clause, trail: seq<int>, collect: bool, now: set<int>) {
    exists id :: id in live && id in lits && Lits(lits[id]) == cl && now == Left(lits, live - {id}, trail, collect)
  }

  /** Deletion: it succeeds exactly if the clause is redundant or present, so always for a kept clause, and
      takes one addition back.  Of a redundant clause nothing else has to go. */
  ghost predicate Deleted(kept: multiset<Clause>, lits: map<int, seq<int>>, live: set<int>, trail: seq<int>, cl: Clause, collect: bool, ok: bool, left: multiset<Clause>, now: set<int>) {
    && left == (if ok then kept - multiset{cl} else kept)
    && (ok <==> Redundant(trail, cl) || Present(lits, live, cl)) && (cl in kept ==> ok)
    && if ok && !Redundant(trail, cl) then OneRemoved(lits, live, cl, trail, collect, now) else now == live
  }

  predicate TrueOn(trail: seq<int>, c: seq<int>) {
    exists l :: l in c && l in trail
  }

  // ----- open literals -----

  ghost predicate AllFalse(trail: seq<int>, c: seq<int>) {
    forall l :: l in c ==> -l in trail
  }

  ghost predicate OnlyOpen(trail: seq<int>, c: seq<int>, unit: int) {
    unit in c && -unit !in trail && forall l :: l in c && l != unit ==> -l in trail
  }

  ghost predicate TwoOpen(trail: seq<int>, c: seq<int>) {
    exists i, j :: 0 <= i < j < |c| && -c[i] !in trail && -c[j] !in trail
  }

  class Checker {
    ghost var originals: set<Clause>
    ghost var kept: multiset<Clause>
    var lits: map<int, seq<int>>
    var live: set<int>
    var watchers: map<int, seq<Watch>>
    var trail: seq<int>
    var next: int
    var size: int
    var inconsistent: bool
    var nextId: int
    var table: seq<seq<int>>
    var hashes: map<int, int>
    ghost var keys: map<int, seq<int>>
    const hash: seq<int> -> int
    const reduce: (int, int) -> int

    ghost function Clauses(): Store
      reads this
    {
      Store(lits, live, watchers)
    }

    ghost predicate Base(assumed: set<int>)
      reads this
    {
      && TrailOk(trail) && StoreOk(Clauses()) && StoredFollow(originals, lits) && Forced(originals, assumed, trail)
      && 0 <= next <= |trail| && Bounded(size, trail, lits)
    }

    /** Between two steps: everything is propagated and kept, or the original clauses are refuted. */
    ghost predicate Valid()
      reads this
    {
      && size >= 0
      && if inconsistent then Refuted(originals, {})
         else next == |trail| && Steady(originals, kept, trail, Clauses(), size, table, hashes, keys, nextId, hash, reduce)
    }

    constructor (hashing: seq<int> -> int, reducing: (int, int) -> int)
      requires ReduceOk(reducing)
      ensures Valid() && originals == {} && kept == multiset{} && !inconsistent
    {
      hash, reduce, kept := hashing, reducing, multiset{};
      originals, lits, live, watchers, trail, next, size, inconsistent := {}, map[], {}, map[], [], 0, 0, false;
      nextId, table, hashes, keys := 0, [], map[], map[];
    }

    /** Assigns the only literal of a stored clause that is not false. */
    method Imply(x: int, ghost id: int, ghost assumed: set<int>, ghost w: int, ghost rest: seq<Watch>, ghost b: int, ghost pp: int)
      requires Base(assumed) && id in lits && FalseExcept(trail, lits[id], x) && x in lits[id]
      requires x != 0 && !IsTrue(trail, x) && !IsFalse(trail, x)
      requires Pending(trail, Clauses(), w, rest, b, pp) && 0 <= b <= |trail| && 0 <= pp <= |trail|
      modifies this`trail
      ensures Base(assumed) && trail == old(trail) + [x] && Pending(trail, Clauses(), w, rest, b, pp) && SatBefore(trail, lits[id], |trail|)
    {
      hide StoreOk, StoredFollow, Forced, FalseExcept, Pending, SatBefore;
      UnitForces(originals, assumed, lits, trail, id, x);
      TrailMore(trail, x);
      PendingExtends(trail, x, Clauses(), w, rest, b, pp);
      SatExtends(trail, x, lits[id], |trail|);
      trail := trail + [x];
    }

    /** Visits entry `i` of the list `ws` of the false literal `w`; `kept` are the entries kept so far. */
    method VisitWatch(w: int, ws: seq<Watch>, i: int, kept: seq<Watch>, ghost assumed: set<int>, ghost pp: int) returns (res: bool, now: seq<Watch>)
      requires Base(assumed) && 0 <= i < |ws| && ListOf(Clauses(), w) == kept + ws[i..]
      requires 0 <= pp < next && trail[next - 1] == -w && Pending(trail, Clauses(), w, ws[i..], next - 1, pp)
      modifies this`lits, this`watchers, this`trail
      ensures Base(assumed) && old(trail) <= trail && live == old(live) && SameText(old(lits), lits)
      ensures ListOf(Clauses(), w) == now + ws[i + 1..] && AllFine(trail, Clauses(), pp, pp)
      ensures res ==> Pending(trail, Clauses(), w, ws[i + 1..], next - 1, pp)
      ensures !res ==> Refuted(originals, assumed)
    {
      hide StoreOk, StoredFollow, Forced, Pending, SatBefore, ClauseOk, Refuted, FalseExcept, AllFine, Bounded, TrailOk;
      var e := ws[i];
      SplitList(kept, ws, i);
      EntryAt(Clauses(), w, |kept|);
      AllFinePending(trail, Clauses(), w, ws[i..], next - 1, pp);
      assert -w in trail;
      if IsTrue(trail, e.blit) {
        SatNow(trail, lits[e.id], e.blit);
        Keep(w, ws, i, kept, e.blit, assumed, pp);
        return true, kept + [e];
      }
      if e.size == 2 {
        BinaryFalse(trail, lits[e.id], w, e.blit);
        if IsFalse(trail, e.blit) {
          ClauseProper(lits[e.id], e.blit);
          ConflictRefutes(originals, assumed, lits, trail, e.id);
          return false, kept + [e];
        }
        ClauseProper(lits[e.id], e.blit);
        Imply(e.blit, e.id, assumed, w, ws[i..], next - 1, pp);
        Keep(w, ws, i, kept, e.blit, assumed, pp);
        return true, kept + [e];
      }
      res, now := VisitLong(w, ws, i, kept, assumed, pp);
    }

    method VisitLong(w: int, ws: seq<Watch>, i: int, kept: seq<Watch>, ghost assumed: set<int>, ghost pp: int) returns (res: bool, now: seq<Watch>)
      requires Base(assumed) && 0 <= i < |ws| && ListOf(Clauses(), w) == kept + ws[i..]
      requires 0 <= pp < next && trail[next - 1] == -w && Pending(trail, Clauses(), w, ws[i..], next - 1, pp)
      requires EntryOk(Clauses(), w, ws[i]) && ClauseOk(lits[ws[i].id]) && ws[i].size > 2
      modifies this`lits, this`watchers, this`trail
      ensures Base(assumed) && old(trail) <= trail && live == old(live) && SameText(old(lits), lits)
      ensures ListOf(Clauses(), w) == now + ws[i + 1..] && AllFine(trail, Clauses(), pp, pp)
      ensures res ==> Pending(trail, Clauses(), w, ws[i + 1..], next - 1, pp)
      ensures !res ==> Refuted(originals, assumed)
    {
      hide StoreOk, StoredFollow, Forced, Pending, SatBefore, ClauseOk, Refuted, FalseExcept, AllFine, Bounded, TrailOk;
      var e := ws[i];
      SplitList(kept, ws, i);
      AllFinePending(trail, Clauses(), w, ws[i..], next - 1, pp);
      assert -w in trail;
      if e.id !in live {
        DropGarbage(Clauses(), w, kept, ws, i);
        watchers := watchers[w := kept + ws[i + 1..]];
        PendingNext(trail, old(Clauses()), Clauses(), w, ws, i, next - 1, pp);
        AllFinePending(trail, Clauses(), w, ws[i + 1..], next - 1, pp);
        return true, kept;
      }
      var other := if lits[e.id][0] == w then lits[e.id][1] else lits[e.id][0];
      FirstTwo(lits[e.id], w, other);
      if IsTrue(trail, other) {
        SatNow(trail, lits[e.id], other);
        Keep(w, ws, i, kept, other, assumed, pp);
        return true, kept + [e.(blit := other)];
      }
      assert e.blit in Lits(lits[e.id]);
      Front(e.id, w, other, ws[i..], assumed, next - 1, pp);
      assert e.blit in Lits(lits[e.id]);
      AllFinePending(trail, Clauses(), w, ws[i..], next - 1, pp);
      var k := Replacement(trail, lits[e.id]);
      if k < |lits[e.id]| {
        Move(e.id, w, other, k, ws, i, kept, assumed, pp);
        return true, kept;
      }
      RestFalse(trail, lits[e.id], other, w);
      ClauseProper(lits[e.id], other);
      if IsFalse(trail, other) {
        ConflictRefutes(originals, assumed, lits, trail, e.id);
        return false, kept + [e];
      }
      Imply(other, e.id, assumed, w, ws[i..], next - 1, pp);
      Keep(w, ws, i, kept, e.blit, assumed, pp);
      return true, kept + [e];
    }

    /** Visits the whole watch list of the false literal `w`. */
    method VisitList(w: int, ghost assumed: set<int>, ghost pp: int) returns (res: bool)
      requires Base(assumed) && 0 <= pp < next && trail[next - 1] == -w
      requires AllFine(trail, Clauses(), next - 1, |trail|) && AllFine(trail, Clauses(), pp, pp)
      modifies this`lits, this`watchers, this`trail
      ensures Base(assumed) && old(trail) <= trail && SameText(old(lits), lits) && AllFine(trail, Clauses(), pp, pp)
      ensures res ==> AllFine(trail, Clauses(), next, |trail|)
      ensures !res ==> Refuted(originals, assumed)
    {
      hide StoreOk, StoredFollow, Forced, Pending, Refuted, Bounded, TrailOk, SameText, AllFine;
      var ws := if w in watchers then watchers[w] else [];
      var kept: seq<Watch> := [];
      var i := 0;
      res := true;
      PendingStart(trail, Clauses(), w, next - 1, pp);
      SameTextRefl(lits);
      assert ws[0..] == ws;
      while res && i < |ws|
        invariant 0 <= i <= |ws| && Base(assumed) && old(trail) <= trail && SameText(old(lits), lits) && AllFine(trail, Clauses(), pp, pp)
        invariant ListOf(Clauses(), w) == kept + ws[i..] && trail[next - 1] == -w
        invariant res ==> Pending(trail, Clauses(), w, ws[i..], next - 1, pp)
        invariant !res ==> Refuted(originals, assumed)
      {
        ghost var before := lits;
        res, kept := VisitWatch(w, ws, i, kept, assumed, pp);
        SameTextTrans(old(lits), before, lits);
        i := i + 1;
      }
      if res {
        assert ws[i..] == [];
        PendingDone(trail, Clauses(), w, next, pp);
      }
    }

    /** Propagates everything on the trail.  On success no live clause is false or unit. */
    method Propagate(ghost assumed: set<int>, ghost pp: int) returns (res: bool)
      requires Base(assumed) && 0 <= pp <= next && size >= 0
      requires AllFine(trail, Clauses(), next, |trail|) && AllFine(trail, Clauses(), pp, pp)
      modifies this`lits, this`watchers, this`trail, this`next
      ensures Base(assumed) && old(trail) <= trail && SameText(old(lits), lits) && AllFine(trail, Clauses(), pp, pp)
      ensures res ==> next == |trail| && AllFine(trail, Clauses(), |trail|, |trail|)
      ensures !res ==> Refuted(originals, assumed)
    {
      hide StoreOk, StoredFollow, Forced, Refuted, TrailOk, SameText, AllFine;
      res := true;
      SameTextRefl(lits);
      while res && next < |trail|
        invariant Base(assumed) && pp <= next && old(trail) <= trail && SameText(old(lits), lits) && AllFine(trail, Clauses(), pp, pp)
        invariant res ==> AllFine(trail, Clauses(), next, |trail|)
        invariant !res ==> Refuted(originals, assumed)
        decreases size - next, res
      {
        ghost var before := lits;
        TrailBound(trail, size);
        var lit := trail[next];
        next := next + 1;
        assert -(-lit) == lit;
        res := VisitList(-lit, assumed, pp);
        SameTextTrans(old(lits), before, lits);
      }
    }

    /** Keeps the visited entry of a satisfied clause, with blocking literal `blit`. */
    method Keep(w: int, ws: seq<Watch>, i: int, kept: seq<Watch>, blit: int, ghost assumed: set<int>, ghost pp: int)
      requires Base(assumed) && 0 <= i < |ws| && ListOf(Clauses(), w) == kept + ws[i..]
      requires 0 <= pp < next && Pending(trail, Clauses(), w, ws[i..], next - 1, pp)
      requires ws[i].id in lits && blit in lits[ws[i].id] && blit != w && SatBefore(trail, lits[ws[i].id], |trail|)
      modifies this`watchers
      ensures Base(assumed) && ListOf(Clauses(), w) == kept + [ws[i].(blit := blit)] + ws[i + 1..]
      ensures Pending(trail, Clauses(), w, ws[i + 1..], next - 1, pp) && AllFine(trail, Clauses(), pp, pp)
    {
      hide StoreOk, StoredFollow, Forced, Pending, SatBefore, Bounded, TrailOk, AllFine;
      KeepEntry(Clauses(), w, kept, ws, i, blit);
      watchers := watchers[w := kept + [ws[i].(blit := blit)] + ws[i + 1..]];
      PendingNext(trail, old(Clauses()), Clauses(), w, ws, i, next - 1, pp);
      AllFinePending(trail, Clauses(), w, ws[i + 1..], next - 1, pp);
    }

    /** Puts the other watch first and the false one second. */
    method Front(id: int, w: int, other: int, ghost rest: seq<Watch>, ghost assumed: set<int>, ghost b: int, ghost pp: int)
      requires Base(assumed) && id in live && id in lits && ClauseOk(lits[id]) && Pair(lits[id], other, w)
      requires Pending(trail, Clauses(), w, rest, b, pp)
      modifies this`lits
      ensures Base(assumed) && SameText(old(lits), lits) && id in lits && lits[id] == Swapped(old(lits)[id], other, w) && ClauseOk(lits[id]) && Pair(lits[id], other, w)
      ensures Lits(lits[id]) == old(Lits(lits[id])) && Pending(trail, Clauses(), w, rest, b, pp)
    {
      hide StoreOk, StoredFollow, Forced, Pending, TrailOk, ClauseOk;
      SwappedLits(lits[id], other, w);
      SwapOk(Clauses(), id, other, w);
      SwapPending(trail, Clauses(), id, other, w, rest, b, pp);
      SameSound(originals, size, trail, lits, id, Swapped(lits[id], other, w));
      lits := lits[id := Swapped(lits[id], other, w)];
    }

    /** Watches the literal at position `k` instead of the false one. */
    method Move(id: int, w: int, other: int, k: int, ws: seq<Watch>, i: int, kept: seq<Watch>, ghost assumed: set<int>, ghost pp: int)
      requires Base(assumed) && 0 <= i < |ws| && ListOf(Clauses(), w) == kept + ws[i..] && id == ws[i].id
      requires 0 <= pp < next && Pending(trail, Clauses(), w, ws[i..], next - 1, pp)
      requires id in live && id in lits && ClauseOk(lits[id]) && Pair(lits[id], other, w) && 2 <= k < |lits[id]| && !IsFalse(trail, lits[id][k])
      modifies this`lits, this`watchers
      ensures Base(assumed) && SameText(old(lits), lits) && ListOf(Clauses(), w) == kept + ws[i + 1..]
      ensures Pending(trail, Clauses(), w, ws[i + 1..], next - 1, pp) && AllFine(trail, Clauses(), pp, pp)
    {
      hide StoreOk, StoredFollow, Forced, Pending, TrailOk, ClauseOk, Removes, AllFine, Moved;
      ghost var s := Clauses();
      var rest, c := kept + ws[i + 1..], lits[id];
      DropEntry(s, w, kept, ws, i);
      MoveWatchOk(s, id, w, other, k, rest);
      PendingMoved(trail, s, id, w, other, k, ws, i, rest, next - 1, pp);
      MoveLists(s, id, w, other, k, rest, w);
      MovedLits(c, other, w, k);
      SameSound(originals, size, trail, lits, id, Moved(c, other, w, k));
      var list := if c[k] in watchers then watchers[c[k]] else [];
      watchers := watchers[w := rest][c[k] := list + [Watch(w, |c|, id)]];
      lits := lits[id := Moved(c, other, w, k)];
      assert Clauses() == MoveWatch(s, id, w, other, k, rest);
      AllFinePending(trail, Clauses(), w, ws[i + 1..], next - 1, pp);
    }

    /** Undoes all assignments after the first `n`. */
    method Backtrack(n: int)
      requires 0 <= n <= |trail|
      modifies this`trail, this`next
      ensures trail == old(trail)[..n] && next == n
    {
      while |trail| > n
        invariant n <= |trail| <= |old(trail)| && trail == old(trail)[..|trail|]
      {
        trail := trail[..|trail| - 1];
      }
      next := n;
    }

    /** Assumes the negation of each literal of the clause that is not yet false. */
    method Assume(c: seq<int>)
      requires Base({}) && AllFine(trail, Clauses(), next, |trail|) && AllFine(trail, Clauses(), next, next) && Fits(c, size, trail)
      modifies this`trail
      ensures Base(Negated(Lits(c))) && old(trail) <= trail && forall l :: l in c ==> -l in trail
      ensures AllFine(trail, Clauses(), next, |trail|) && AllFine(trail, Clauses(), next, next)
    {
      hide StoreOk, StoredFollow, TrailOk, AllFine, Bounded, IndexOk, Forced, Fits, Lits, Negated, Retained;
      ghost var assumed := Negated(Lits(c));
      var i := 0;
      ForcedMore(originals, {}, assumed, trail);
      while i < |c|
        invariant 0 <= i <= |c| && Base(assumed) && old(trail) <= trail
        invariant AllFine(trail, Clauses(), next, |trail|) && AllFine(trail, Clauses(), next, next)
        invariant forall l :: l in trail ==> l in old(trail) || -l in c[..i]
        invariant forall k :: 0 <= k < i ==> -c[k] in trail
      {
        var lit := c[i];
        if -lit !in trail {
          NewAssumption(c, size, i, old(trail), trail);
          TrailMore(trail, -lit);
          AllFineExtends(trail, -lit, Clauses(), next);
          ForcedAssumed(originals, assumed, trail, -lit);
          BoundedMore(size, trail, lits, -lit);
          trail := trail + [-lit];
        }
        assert c[..i + 1] == c[..i] + [lit];
        i := i + 1;
      }
    }

    /** Does assuming the negation of the clause lead to a conflict?  Assignments are undone. */
    method Check(c: seq<int>) returns (res: bool)
      requires Valid() && Fits(c, size, trail)
      modifies this`lits, this`watchers, this`trail, this`next
      ensures Valid() && trail == old(trail)
      ensures res ==> Entailed(originals, Lits(c))
      ensures !res ==> exists t :: Saturated(t, Clauses(), c) && old(trail) <= t
    {
      hide StoreOk, StoredFollow, TrailOk, Bounded, AllFine, IndexOk, Forced, Retained;
      if inconsistent {
        RefutedFollows(originals, Lits(c));
        return true;
      }
      ghost var pp, before := next, lits;
      var height := next;
      assert old(Forced(originals, {}, trail));
      Assume(c);
      var ok := Propagate(Negated(Lits(c)), pp);
      res := !ok;
      ghost var t := trail;
      assert trail[..pp] == old(trail);
      CutBase(originals, trail, pp, Clauses(), size);
      Backtrack(height);
      assert trail[..|trail|] == trail;
      SameIndex(table, hashes, keys, before, Clauses(), nextId, hash, reduce);
      RetainedSame(kept, trail, trail, before, lits, live);
      if res {
        NegatedFollows(originals, c);
      } else {
        assert Saturated(t, Clauses(), c);
      }
    }

    /** Adds a clause that follows from the original ones: nothing left refutes them, a single
        literal is assigned and propagated, a longer clause is stored. */
    method AddClause(c: seq<int>)
      requires Valid() && !inconsistent && Fits(c, size, trail) && Strict(c) && Entailed(originals, Lits(c))
      modifies this
      ensures Valid() && originals == old(originals) && kept == old(kept) + multiset{Lits(c)}
      ensures || (AllFalse(old(trail), c) && inconsistent)
              || (exists u :: OnlyOpen(old(trail), c, u) && (inconsistent || (old(trail) + [u] <= trail && live == old(live))))
              || (TwoOpen(old(trail), c) && !inconsistent && trail == old(trail) && Stored(c, old(live), old(nextId)))
    {
      hide StoreOk, StoredFollow, TrailOk, Bounded, AllFine, IndexOk, Forced, Refuted, Entailed, Retained, OnlyOpen, TwoOpen, AllFalse;
      var count, unit := CountOpen(trail, c);
      if count == 0 {
        AllFalseRefutes(originals, trail, c);
        inconsistent, kept := true, kept + multiset{Lits(c)};
      } else if count == 1 {
        ghost var before, was := lits, trail;
        UnitStep(originals, trail, c, unit, Clauses(), size);
        trail := trail + [unit];
        assert OnlyOpen(was, c, unit);
        var ok := Propagate({}, 0);
        SameIndex(table, hashes, keys, before, Clauses(), nextId, hash, reduce);
        RetainedSame(kept, was, trail, before, lits, live);
        UnitMakesTrue(was, trail, c, unit);
        RetainedRedundant(kept, trail, lits, live, Lits(c));
        kept := kept + multiset{Lits(c)};
        if !ok {
          inconsistent := true;
        }
      } else {
        Insert(c);
      }
    }

    /** The clause is stored under a new identity. */
    ghost predicate Stored(c: seq<int>, before: set<int>, id: int)
      reads this
    {
      id !in before && live == before + {id} && id in lits && Lits(lits[id]) == Lits(c)
    }

    /** Stores a clause whose first two literals, after swapping, are unassigned. */
    method Insert(c: seq<int>)
      requires Valid() && !inconsistent && Fits(c, size, trail) && Strict(c) && Entailed(originals, Lits(c))
      requires TwoOpen(trail, c)
      modifies this
      ensures Valid() && !inconsistent && originals == old(originals) && kept == old(kept) + multiset{Lits(c)}
      ensures trail == old(trail) && Stored(c, old(live), old(nextId))
    {
      hide StoreOk, StoredFollow, TrailOk, Bounded, AllFine, Forced, IndexOk, TableOk, ReduceOk, Entailed, ClauseOk, Strict, Retained;
      MakeRoom();
      var d := Arrange(trail, c);
      ArrangedOk(c, d);
      Link(c, d);
    }

    /** Puts the arranged clause `d` in the store, its watch lists and its chain. */
    method Link(c: seq<int>, d: seq<int>)
      requires Valid() && !inconsistent && |table| > 0 && Strict(c) && Entailed(originals, Lits(c)) && ClauseOk(d) && Lits(d) == Lits(c)
      requires -d[0] !in trail && -d[1] !in trail && Known(c, size)
      modifies this
      ensures Valid() && !inconsistent && originals == old(originals) && kept == old(kept) + multiset{Lits(c)}
      ensures trail == old(trail) && Stored(c, old(live), old(nextId))
    {
      hide Steady, Entailed, ClauseOk, Strict, Lits, Refuted, PushedWatch, Fits;
      var id, h := nextId, hash(c);
      ghost var s := Clauses();
      LinkKeeps(originals, kept, trail, s, size, table, hashes, keys, id, hash, reduce, c, d);
      var b := reduce(h, |table|);
      table, hashes := table[b := [id] + table[b]], hashes[id := h];
      keys, kept := keys[id := c], kept + multiset{Lits(c)};
      watchers := PushedWatch(PushedWatch(watchers, d[0], Watch(d[1], |d|, id)), d[1], Watch(d[0], |d|, id));
      lits, live, nextId := lits[id := d], live + {id}, nextId + 1;
      assert Clauses() == Added(s, id, d);
    }

    /** Enlarges a full table. */
    method MakeRoom()
      requires Valid() && !inconsistent
      modifies this`table
      ensures Valid() && |table| > 0
    {
      hide StoreOk, StoredFollow, TrailOk, Bounded, AllFine, Forced, IndexOk, TableOk, ReduceOk, Retained;
      IndexedLive(table, hashes, keys, lits, live, nextId, hash, reduce);
      EmptyMeansNone(table, hashes, live, reduce);
      if |live| == |table| {
        ghost var was := table;
        table := Enlarge(table, hashes, reduce, live);
        SameIndexTable(was, table, hashes, keys, lits, live, nextId, hash, reduce);
      }
    }

    /** Between two steps every live clause is satisfied or has two unassigned literals. */
    lemma Quiescent(id: int)
      requires Valid() && !inconsistent && id in live
      ensures id in lits
      ensures (exists l :: l in lits[id] && l in trail) ||
              (exists i, j :: 0 <= i < j < |lits[id]| && Undecided(trail, lits[id][i]) && Undecided(trail, lits[id][j]))
    {
      hide TrailOk, StoredFollow, Forced, Bounded, IndexOk, EntriesOk, Unique, Fine, Retained;
      assert Watched(Clauses(), id);
      FineMeans(trail, lits[id]);
    }

    ghost predicate Current(m: set<int>)
      reads this
    {
      AllHold(m, Lits(trail)) && forall id :: id in live && id in lits ==> Satisfies(m, Lits(lits[id]))
    }

    /** Nothing is lost: the trail and the live clauses follow from the original clauses and imply every
        clause that was added and not deleted. */
    lemma KeepsMeaning(m: set<int>)
      requires Valid() && !inconsistent
      ensures Models(m, originals) ==> Current(m)
      ensures Current(m) ==> forall cl :: cl in kept ==> Satisfies(m, cl)
      ensures (forall cl :: cl in originals ==> cl in kept) ==> (Models(m, originals) <==> Current(m))
    {
      hide TrailOk, Bounded, IndexOk, StoreOk, AllFine, Retained, Copies;
      assert AllHold(m, {});
      hide AllHold, Satisfies;
      if Current(m) {
        forall cl | cl in kept
          ensures Satisfies(m, cl)
        {
          KeptFound(kept, trail, lits, live, cl);
          if Redundant(trail, cl) {
            RedundantHolds(m, trail, cl);
          }
        }
      }
    }

    /** Adds an original clause. */
    method AddOriginalClause(c: seq<int>)
      requires Valid() && Proper(c)
      modifies this
      ensures Valid() && originals == old(originals) + {Lits(c)} && kept == old(kept) + multiset{Lits(c)}
    {
      hide StoreOk, StoredFollow, TrailOk, Bounded, AllFine, IndexOk, Forced, Refuted, Entailed, Fits, Retained, Redundant, Open;
      MoreOriginals(originals, Lits(c), lits, trail);
      originals := originals + {Lits(c)};
      if inconsistent {
        kept := kept + multiset{Lits(c)};
        return;
      }
      EnlargeVars(c);
      var taut, simplified := Normalize(c, trail);
      if taut {
        RetainedRedundant(kept, trail, lits, live, Lits(c));
        kept := kept + multiset{Lits(c)};
      } else {
        NormalizedFits(c, simplified, size, trail);
        OriginalFollows(originals, Lits(c));
        AddClause(simplified);
      }
    }

    /** Accepts a derived clause only if it follows from the original ones. */
    method AddDerivedClause(c: seq<int>) returns (accepted: bool)
      requires Valid() && Proper(c)
      modifies this
      ensures Valid() && originals == old(originals)
      ensures accepted ==> Entailed(originals, Lits(c)) && kept == old(kept) + multiset{Lits(c)}
      ensures !accepted ==> kept == old(kept) && exists t :: Saturated(t, Clauses(), c) && old(trail) <= t
    {
      hide StoreOk, StoredFollow, TrailOk, Bounded, AllFine, IndexOk, Refuted, Entailed, Fits, Retained, Redundant, Open;
      if inconsistent {
        RefutedFollows(originals, Lits(c));
        kept := kept + multiset{Lits(c)};
        return true;
      }
      EnlargeVars(c);
      var taut, simplified := Normalize(c, trail);
      if taut {
        SatisfiedFollows(originals, trail, c);
        RetainedRedundant(kept, trail, lits, live, Lits(c));
        kept := kept + multiset{Lits(c)};
        return true;
      }
      NormalizedFits(c, simplified, size, trail);
      accepted := Check(simplified);
      if accepted {
        AddClause(simplified);
      } else {
        ghost var t :| Saturated(t, Clauses(), simplified) && old(trail) <= t;
        SaturatedSame(t, Clauses(), simplified, c);
      }
    }

    method EnlargeVars(c: seq<int>)
      requires Valid()
      modifies this`size
      ensures Valid() && size >= old(size) && Known(c, size)
    {
      hide StoreOk, StoredFollow, TrailOk, AllFine, IndexOk, Forced, Refuted, Retained;
      var i := 0;
      while i < |c|
        invariant 0 <= i <= |c| && size >= old(size) && Valid() && Known(c[..i], size)
      {
        if Abs(c[i]) > size {
          size := Abs(c[i]);
        }
        assert c[..i + 1] == c[..i] + [c[i]];
        i := i + 1;
      }
      assert c[..|c|] == c;
    }

    /** Deletes a clause; fails if no live clause has exactly these literals. */
    method DeleteClause(c: seq<int>, collect: bool) returns (ok: bool)
      requires Valid() && Proper(c)
      modifies this
      ensures Valid() && originals == old(originals) && inconsistent == old(inconsistent) && trail == old(trail)
      ensures if inconsistent then ok else Deleted(old(kept), old(lits), old(live), trail, Lits(c), collect, ok, kept, live)
    {
      hide Steady, Refuted, Strict, Redundant, Lits, Deleted, Proper, Open, Known;
      ok := true;
      if inconsistent {
        return;
      }
      EnlargeVars(c);
      var taut, simplified := Normalize(c, trail);
      if taut {
        Forget(c, collect);
      } else {
        ok := DeleteStored(simplified, collect);
      }
    }

    /** Nothing to delete for a redundant clause. */
    ghost method Forget(c: seq<int>, collect: bool)
      requires Valid() && !inconsistent && Redundant(trail, Lits(c))
      modifies this`kept
      ensures Valid() && Deleted(old(kept), lits, live, trail, Lits(c), collect, true, kept, live)
    {
      hide StoreOk, StoredFollow, TrailOk, Bounded, AllFine, Forced, IndexOk, Retained, Redundant, Lits;
      RetainedRedundant(kept, trail, lits, live, Lits(c));
      kept := kept - multiset{Lits(c)};
    }

    /** Looks a clause without true literals up and deletes it. */
    method DeleteStored(c: seq<int>, collect: bool) returns (ok: bool)
      requires Valid() && !inconsistent && Strict(c) && !Redundant(trail, Lits(c))
      modifies this`live, this`table, this`lits, this`watchers, this`kept
      ensures Valid() && Deleted(old(kept), old(lits), old(live), trail, Lits(c), collect, ok, kept, live)
    {
      hide StoreOk, StoredFollow, TrailOk, Bounded, AllFine, Forced, Refuted, IndexOk, TableOk, ReduceOk, Strict, Retained, Redundant, Lits, Present, OneRemoved;
      StrictNoDuplicates(c);
      IndexedLive(table, hashes, keys, lits, live, nextId, hash, reduce);
      var r := FindClause(table, hashes, lits, c, hash(c), reduce, live);
      if r == -1 {
        NonePresent(table, hashes, keys, lits, live, nextId, hash, reduce, c);
        KeptFound(kept, trail, lits, live, Lits(c));
        return false;
      }
      Remove(r, collect);
      ok := true;
    }

    /** Retires the clause found for deletion and perhaps collects garbage. */
    method Remove(r: int, collect: bool)
      requires Valid() && !inconsistent && r in live && r in lits
      modifies this`live, this`table, this`lits, this`watchers, this`kept
      ensures Valid() && kept == old(kept) - multiset{old(Lits(lits[r]))}
      ensures OneRemoved(old(lits), old(live), old(Lits(lits[r])), trail, collect, live)
      ensures Present(old(lits), old(live), old(Lits(lits[r])))
    {
      hide StoreOk, StoredFollow, TrailOk, Bounded, AllFine, Forced, Refuted, IndexOk, Retained, Redundant, Unsatisfied;
      RetainedRetired(kept, trail, lits, live, r);
      Retire(r, kept - multiset{Lits(lits[r])});
      if collect {
        CollectGarbage();
      }
    }

    /** Takes a live clause out of the table; `left` still has to be covered. */
    method Retire(id: int, ghost left: multiset<Clause>)
      requires Valid() && !inconsistent && id in live && Retained(left, trail, lits, live - {id})
      modifies this`live, this`table, this`kept
      ensures Valid() && live == old(live) - {id} && kept == left
    {
      hide StoreOk, StoredFollow, TrailOk, Bounded, Fine, Forced, IndexOk, Retained;
      RetiredIndex(table, hashes, keys, lits, live, nextId, hash, reduce, id);
      RetireOk(Clauses(), live - {id});
      var b := reduce(hashes[id], |table|);
      table := table[b := Without(table[b], id)];
      live, kept := live - {id}, left;
    }

    /** Retires clauses satisfied on the trail and frees all garbage. */
    method CollectGarbage()
      requires Valid() && !inconsistent
      modifies this`live, this`table, this`lits, this`watchers, this`kept
      ensures Valid() && kept == old(kept)
      ensures live == Unsatisfied(old(lits), old(live), trail) && lits == Restricted(old(lits), live)
    {
      hide StoreOk, StoredFollow, TrailOk, Bounded, AllFine, Forced, IndexOk, Retained, TrueOn, Restricted, Swept, Refuted, Redundant;
      var todo := live;
      while todo != {}
        invariant Valid() && todo <= live <= old(live) && originals == old(originals) && kept == old(kept) && lits == old(lits)
        invariant forall id :: id in old(live) && id !in todo ==> id in lits && (id in live <==> !TrueOn(trail, lits[id]))
        decreases |todo|
      {
        var id := Pick(todo);
        todo := todo - {id};
        InStore(Clauses(), id);
        if TrueOn(trail, lits[id]) {
          TrueRedundant(trail, Clauses(), id);
          RetainedRetired(kept, trail, lits, live, id);
          Retire(id, kept);
        }
      }
      CollectedOk(Clauses());
      CollectedSound(originals, trail, Clauses(), size);
      CollectedIndex(table, hashes, keys, Clauses(), nextId, hash, reduce);
      RetainedFreed(kept, trail, lits, live);
      AllSwept(lits, old(live), live, trail);
      ghost var s := Clauses();
      watchers := Swept(watchers, live);
      lits := Restricted(lits, live);
      assert Clauses() == Collected(s);
    }
  }

  lemma AllSwept(lits: map<int, seq<int>>, before: set<int>, live: set<int>, trail: seq<int>)
    requires live <= before && forall id :: id in before ==> id in lits && (id in live <==> !TrueOn(trail, lits[id]))
    ensures live == Unsatisfied(lits, before, trail)
  {
    hide TrueOn;
    forall id
      ensures id in live <==> id in Unsatisfied(lits, before, trail)
    {
      assert id in before ==> (id in live <==> !TrueOn(trail, lits[id]));
    }
  }

  // ----- redundant clauses -----

  lemma UnitMakesTrue(was: seq<int>, trail: seq<int>, c: seq<int>, unit: int)
    requires was + [unit] <= trail && unit in c && unit != 0
    ensures Redundant(trail, Lits(c))
  {
    assert trail[|was|] == (was + [unit])[|was|];
    assert unit in Lits(c) && unit in trail;
  }

  lemma TrueRedundant(trail: seq<int>, s: Store, id: int)
    requires StoreOk(s) && id in s.live && id in s.lits && TrueOn(trail, s.lits[id])
    ensures Redundant(trail, Lits(s.lits[id]))
  {
    hide EntriesOk, Unique;
    assert Watched(s, id);
    var l :| l in s.lits[id] && l in trail;
    assert l in Lits(s.lits[id]);
  }

  lemma RedundantHolds(m: set<int>, trail: seq<int>, cl: Clause)
    requires Redundant(trail, cl) && AllHold(m, Lits(trail))
    ensures Satisfies(m, cl)
  {
    var l :| l in cl && l != 0 && (l in trail || -l in cl);
    assert l in trail ==> l in Lits(trail);
    var k := if Holds(m, l) then l else -l;
    assert k in cl && Holds(m, k);
  }

  /** Everything is propagated, the index agrees with the clauses, and nothing kept is missing. */
  ghost predicate Steady(originals: set<Clause>, kept: multiset<Clause>, trail: seq<int>, s: Store, n: int, table: seq<seq<int>>, hashes: map<int, int>, keys: map<int, seq<int>>, nextId: int, hash: seq<int> -> int, reduce: (int, int) -> int) {
    && TrailOk(trail) && StoreOk(s) && StoredFollow(originals, s.lits) && Forced(originals, {}, trail) && Bounded(n, trail, s.lits)
    && IndexOk(table, hashes, keys, s.lits, s.live, nextId, hash, reduce) && Retained(kept, trail, s.lits, s.live)
    && AllFine(trail, s, |trail|, |trail|)
  }

  /** The stored hash is that of the sorted literals. */
  ghost predicate KeyOk(lits: map<int, seq<int>>, keys: map<int, seq<int>>, hashes: map<int, int>, hash: seq<int> -> int, id: int) {
    && id in lits && id in keys && id in hashes && Strict(keys[id]) && hashes[id] == hash(keys[id])
    && Lits(keys[id]) == Lits(lits[id]) && NoDuplicates(lits[id])
  }

  ghost predicate IndexOk(table: seq<seq<int>>, hashes: map<int, int>, keys: map<int, seq<int>>, lits: map<int, seq<int>>, live: set<int>, nextId: int, hash: seq<int> -> int, reduce: (int, int) -> int) {
    && ReduceOk(reduce) && TableOk(table, hashes, live, reduce) && nextId >= 0
    && (forall id :: id in live ==> KeyOk(lits, keys, hashes, hash, id)) && (forall id :: id in lits ==> 0 <= id < nextId)
  }

  /** The index survives a reordering of literals. */
  lemma SameIndex(table: seq<seq<int>>, hashes: map<int, int>, keys: map<int, seq<int>>, a: map<int, seq<int>>, s: Store, nextId: int, hash: seq<int> -> int, reduce: (int, int) -> int)
    requires IndexOk(table, hashes, keys, a, s.live, nextId, hash, reduce) && SameText(a, s.lits) && StoreOk(s)
    ensures IndexOk(table, hashes, keys, s.lits, s.live, nextId, hash, reduce)
  {
    hide TableOk, ReduceOk, Lits, Strict, EntriesOk, Unique;
    forall id | id in s.live
      ensures KeyOk(s.lits, keys, hashes, hash, id)
    {
      assert KeyOk(a, keys, hashes, hash, id);
      assert Watched(s, id);
    }
  }

  lemma AddedIndex(table: seq<seq<int>>, hashes: map<int, int>, keys: map<int, seq<int>>, lits: map<int, seq<int>>, live: set<int>, id: int, hash: seq<int> -> int, reduce: (int, int) -> int, c: seq<int>, d: seq<int>)
    requires IndexOk(table, hashes, keys, lits, live, id, hash, reduce) && |table| > 0 && id >= 0
    requires Strict(c) && Lits(d) == Lits(c) && NoDuplicates(d)
    ensures var b := reduce(hash(c), |table|);
      && 0 <= b < |table|
      && IndexOk(table[b := [id] + table[b]], hashes[id := hash(c)], keys[id := c], lits[id := d], live + {id}, id + 1, hash, reduce)
  {
    hide TableOk, Lits, Strict, NoDuplicates;
    assert id !in lits;
    forall x | x in live
      ensures x in lits
    {
      assert KeyOk(lits, keys, hashes, hash, x);
    }
    ClauseTable.AddClause(table, hashes, live, reduce, id, hash(c));
    forall x | x in live + {id}
      ensures KeyOk(lits[id := d], keys[id := c], hashes[id := hash(c)], hash, x)
    {
      assert x != id ==> KeyOk(lits, keys, hashes, hash, x);
    }
  }

  lemma RetiredIndex(table: seq<seq<int>>, hashes: map<int, int>, keys: map<int, seq<int>>, lits: map<int, seq<int>>, live: set<int>, nextId: int, hash: seq<int> -> int, reduce: (int, int) -> int, id: int)
    requires IndexOk(table, hashes, keys, lits, live, nextId, hash, reduce) && id in live
    ensures id in hashes && |table| > 0
    ensures var b := reduce(hashes[id], |table|);
      0 <= b < |table| && IndexOk(table[b := Without(table[b], id)], hashes, keys, lits, live - {id}, nextId, hash, reduce)
  {
    hide TableOk, KeyOk;
    RemoveClause(table, hashes, live, reduce, id);
  }

  lemma CollectedIndex(table: seq<seq<int>>, hashes: map<int, int>, keys: map<int, seq<int>>, s: Store, nextId: int, hash: seq<int> -> int, reduce: (int, int) -> int)
    requires IndexOk(table, hashes, keys, s.lits, s.live, nextId, hash, reduce)
    ensures IndexOk(table, hashes, keys, Collected(s).lits, s.live, nextId, hash, reduce)
  {
    hide TableOk, ReduceOk, Strict, NoDuplicates, Lits;
    forall id | id in s.live
      ensures KeyOk(Collected(s).lits, keys, hashes, hash, id)
    {
      assert KeyOk(s.lits, keys, hashes, hash, id);
    }
  }

  /** What storing a clause does to the whole state. */
  lemma LinkKeeps(originals: set<Clause>, kept: multiset<Clause>, trail: seq<int>, s: Store, n: int, table: seq<seq<int>>, hashes: map<int, int>, keys: map<int, seq<int>>, id: int, hash: seq<int> -> int, reduce: (int, int) -> int, c: seq<int>, d: seq<int>)
    requires Steady(originals, kept, trail, s, n, table, hashes, keys, id, hash, reduce) && |table| > 0
    requires Strict(c) && Entailed(originals, Lits(c)) && ClauseOk(d) && Lits(d) == Lits(c)
    requires -d[0] !in trail && -d[1] !in trail && Known(c, n)
    ensures |d| >= 2 && id !in s.live
    ensures var b := reduce(hash(c), |table|);
      && 0 <= b < |table|
      && Steady(originals, kept + multiset{Lits(c)}, trail, Added(s, id, d), n, table[b := [id] + table[b]], hashes[id := hash(c)], keys[id := c], id + 1, hash, reduce)
  {
    hide StoreOk, StoredFollow, Bounded, AllFine, IndexOk, Entailed, ClauseOk, Strict, Lits, Retained, TrailOk, Forced;
    StoredProper(d);
    NextIsNew(table, hashes, keys, s.lits, s.live, id, hash, reduce);
    AddedOk(s, id, d);
    AddedSound(originals, trail, s, n, id, c, d);
    AddedIndex(table, hashes, keys, s.lits, s.live, id, hash, reduce, c, d);
    RetainedAdded(kept, trail, s.lits, s.live, id, d);
  }

  /** A literal set with no hash match belongs to no live clause. */
  lemma NotStored(table: seq<seq<int>>, hashes: map<int, int>, keys: map<int, seq<int>>, lits: map<int, seq<int>>, live: set<int>, nextId: int, hash: seq<int> -> int, reduce: (int, int) -> int, simplified: seq<int>, id: int)
    requires IndexOk(table, hashes, keys, lits, live, nextId, hash, reduce) && Strict(simplified) && id in live
    requires id in hashes && hashes[id] == hash(simplified) ==> id in lits && Lits(lits[id]) != Lits(simplified)
    ensures id in lits && Lits(lits[id]) != Lits(simplified)
  {
    hide TableOk, ReduceOk, Lits, Strict;
    assert KeyOk(lits, keys, hashes, hash, id);
    if Lits(lits[id]) == Lits(simplified) {
      StrictUnique(keys[id], simplified);
    }
  }

  lemma NonePresent(table: seq<seq<int>>, hashes: map<int, int>, keys: map<int, seq<int>>, lits: map<int, seq<int>>, live: set<int>, nextId: int, hash: seq<int> -> int, reduce: (int, int) -> int, simplified: seq<int>)
    requires IndexOk(table, hashes, keys, lits, live, nextId, hash, reduce) && Strict(simplified)
    requires forall id :: id in live && id in hashes && hashes[id] == hash(simplified) ==> id in lits && Lits(lits[id]) != Lits(simplified)
    ensures !Present(lits, live, Lits(simplified))
  {
    hide IndexOk, Strict, Lits;
    forall id | id in live
      ensures id in lits && Lits(lits[id]) != Lits(simplified)
    {
      NotStored(table, hashes, keys, lits, live, nextId, hash, reduce, simplified, id);
    }
  }

  lemma SameIndexTable(table: seq<seq<int>>, t: seq<seq<int>>, hashes: map<int, int>, keys: map<int, seq<int>>, lits: map<int, seq<int>>, live: set<int>, nextId: int, hash: seq<int> -> int, reduce: (int, int) -> int)
    requires IndexOk(table, hashes, keys, lits, live, nextId, hash, reduce) && TableOk(t, hashes, live, reduce)
    ensures IndexOk(t, hashes, keys, lits, live, nextId, hash, reduce)
  {
    hide TableOk, ReduceOk, KeyOk;
  }

  lemma NextIsNew(table: seq<seq<int>>, hashes: map<int, int>, keys: map<int, seq<int>>, lits: map<int, seq<int>>, live: set<int>, nextId: int, hash: seq<int> -> int, reduce: (int, int) -> int)
    requires IndexOk(table, hashes, keys, lits, live, nextId, hash, reduce)
    ensures nextId !in lits && nextId !in live && nextId >= 0
  {
    hide TableOk, ReduceOk;
    assert nextId in live ==> KeyOk(lits, keys, hashes, hash, nextId);
  }

  lemma StoredProper(d: seq<int>)
    requires ClauseOk(d)
    ensures |d| >= 2 && NoDuplicates(d)
  {
  }

  lemma IndexedLive(table: seq<seq<int>>, hashes: map<int, int>, keys: map<int, seq<int>>, lits: map<int, seq<int>>, live: set<int>, nextId: int, hash: seq<int> -> int, reduce: (int, int) -> int)
    requires IndexOk(table, hashes, keys, lits, live, nextId, hash, reduce)
    ensures ReduceOk(reduce) && TableOk(table, hashes, live, reduce)
    ensures forall id :: id in live ==> id >= 0 && id in lits && NoDuplicates(lits[id])
  {
    hide TableOk, ReduceOk;
    forall id | id in live
      ensures id in lits && NoDuplicates(lits[id])
    {
      assert KeyOk(lits, keys, hashes, hash, id);
    }
  }

  lemma SameTextRefl(a: map<int, seq<int>>)
    ensures SameText(a, a)
  {
  }

  lemma SatNow(trail: seq<int>, c: seq<int>, l: int)
    requires l in c && IsTrue(trail, l)
    ensures SatBefore(trail, c, |trail|)
  {
    TrueAnywhere(trail, l);
  }

  lemma ClauseProper(c: seq<int>, l: int)
    requires ClauseOk(c)
    ensures 0 !in c && (l in c ==> l != 0) && |c| >= 2
  {
  }

  lemma FirstTwo(c: seq<int>, w: int, other: int)
    requires ClauseOk(c) && (w == c[0] || w == c[1]) && other == if c[0] == w then c[1] else c[0]
    ensures Pair(c, other, w) && other in c && other != w
  {
    assert c[0] in c && c[1] in c && c[0] != c[1];
  }

  function Swapped(c: seq<int>, other: int, w: int): (d: seq<int>)
    requires |c| >= 2
    ensures |d| == |c|
  {
    c[0 := other][1 := w]
  }

  lemma SwappedLits(c: seq<int>, other: int, w: int)
    requires ClauseOk(c) && Pair(c, other, w)
    ensures Lits(Swapped(c, other, w)) == Lits(c) && ClauseOk(Swapped(c, other, w)) && Pair(Swapped(c, other, w), other, w)
    ensures Swapped(c, other, w)[0] == other && Swapped(c, other, w)[1] == w
  {
    var d := Swapped(c, other, w);
    forall l
      ensures l in c <==> l in d
    {
      if l in c {
        var i :| 0 <= i < |c| && c[i] == l;
        assert d[0] == other && d[1] == w && (i > 1 ==> d[i] == l);
      }
      if l in d {
        var i :| 0 <= i < |d| && d[i] == l;
        assert i > 1 ==> c[i] == l;
      }
    }
  }

  function SwapIn(s: Store, id: int, other: int, w: int): Store
    requires id in s.lits && |s.lits[id]| >= 2
  {
    s.(lits := s.lits[id := Swapped(s.lits[id], other, w)])
  }

  lemma SwapEntry(s: Store, id: int, other: int, w: int, x: int, e: Watch)
    requires id in s.lits && ClauseOk(s.lits[id]) && Pair(s.lits[id], other, w) && EntryOk(s, x, e)
    ensures EntryOk(SwapIn(s, id, other, w), x, e)
  {
    var c := s.lits[id];
    var d := Swapped(c, other, w);
    SwappedLits(c, other, w);
    hide ClauseOk, Swapped;
    forall l
      ensures l in c <==> l in d
    {
      assert l in Lits(c) <==> l in Lits(d);
    }
  }

  lemma SwapWatched(s: Store, id: int, other: int, w: int, x: int)
    requires id in s.lits && ClauseOk(s.lits[id]) && Pair(s.lits[id], other, w) && Watched(s, x)
    ensures Watched(SwapIn(s, id, other, w), x)
  {
    SwappedLits(s.lits[id], other, w);
    hide ClauseOk, Swapped, Mentions;
  }

  lemma SwapOk(s: Store, id: int, other: int, w: int)
    requires StoreOk(s) && id in s.live && id in s.lits && ClauseOk(s.lits[id]) && Pair(s.lits[id], other, w)
    ensures StoreOk(SwapIn(s, id, other, w))
  {
    var t := SwapIn(s, id, other, w);
    SwappedLits(s.lits[id], other, w);
    hide ClauseOk, Swapped, EntryOk, Watched, DistinctIds, Lits;
    forall x, n | 0 <= n < |ListOf(t, x)|
      ensures EntryOk(t, x, ListOf(t, x)[n])
    {
      assert EntryOk(s, x, ListOf(s, x)[n]);
      SwapEntry(s, id, other, w, x, ListOf(s, x)[n]);
    }
    forall x | x in t.live
      ensures Watched(t, x)
    {
      SwapWatched(s, id, other, w, x);
    }
  }

  lemma SwapPending(trail: seq<int>, s: Store, id: int, other: int, w: int, rest: seq<Watch>, b: int, pp: int)
    requires Pending(trail, s, w, rest, b, pp) && id in s.live && id in s.lits && ClauseOk(s.lits[id]) && Pair(s.lits[id], other, w)
    ensures Pending(trail, s.(lits := s.lits[id := Swapped(s.lits[id], other, w)]), w, rest, b, pp)
  {
    var c := s.lits[id];
    var d := Swapped(c, other, w);
    SwappedLits(c, other, w);
    var t := s.(lits := s.lits[id := d]);
    hide Fine, SatBefore, Swapped, Mentions;
    forall x | x in t.live
      ensures PendingAt(trail, t, w, rest, b, pp, x)
    {
      assert PendingAt(trail, s, w, rest, b, pp, x);
      if x == id {
        SwapFine(trail, c, other, w, b, |trail|);
        SwapFine(trail, c, other, w, pp, pp);
        SameSat(trail, c, d, |trail|);
      }
    }
  }

  lemma SwapFine(trail: seq<int>, c: seq<int>, other: int, w: int, b: int, e: int)
    requires ClauseOk(c) && Pair(c, other, w) && Fine(trail, c, b, e)
    ensures Fine(trail, Swapped(c, other, w), b, e)
  {
    SwappedLits(c, other, w);
    assert c[..2] == [c[0], c[1]];
    FinePermuted(trail, c, Swapped(c, other, w), b, e);
  }

  lemma SameSat(trail: seq<int>, c: seq<int>, d: seq<int>, b: int)
    requires Lits(c) == Lits(d)
    ensures SatBefore(trail, c, b) <==> SatBefore(trail, d, b)
  {
    hide TrueBefore;
    forall l
      ensures l in c <==> l in d
    {
      assert l in Lits(c) <==> l in Lits(d);
    }
  }

  /** Reordering literals changes nothing about meaning and bounds. */
  lemma SameSound(originals: set<Clause>, n: int, trail: seq<int>, lits: map<int, seq<int>>, id: int, d: seq<int>)
    requires StoredFollow(originals, lits) && Bounded(n, trail, lits) && id in lits && Lits(d) == Lits(lits[id])
    ensures StoredFollow(originals, lits[id := d]) && Bounded(n, trail, lits[id := d])
  {
    hide Satisfies, Models;
    forall l
      ensures l in d <==> l in lits[id]
    {
      assert l in Lits(d) <==> l in Lits(lits[id]);
    }
  }

  // ----- derived clauses -----

  /** Unit propagation from the negated clause ends without a conflict: a consistent trail that makes
      all literals of the clause false and on which no live clause is false or unit. */
  ghost predicate Saturated(t: seq<int>, s: Store, c: seq<int>) {
    TrailOk(t) && AllFine(t, s, |t|, |t|) && forall l :: l in c ==> -l in t
  }

  lemma SaturatedSame(t: seq<int>, s: Store, c: seq<int>, d: seq<int>)
    requires Saturated(t, s, c) && Lits(c) == Lits(d)
    ensures Saturated(t, s, d)
  {
    hide TrailOk, AllFine;
    forall l | l in d
      ensures -l in t
    {
      assert l in Lits(d) && l in Lits(c);
    }
  }

  /** All variables of the clause are imported. */
  ghost predicate Known(c: seq<int>, n: int) {
    forall l :: l in c ==> Abs(l) <= n
  }

  predicate Undecided(trail: seq<int>, l: int) {
    l !in trail && -l !in trail
  }

  /** A clause as it is checked and added: known variables, no literal true, none complementary. */
  ghost predicate Fits(c: seq<int>, n: int, trail: seq<int>) {
    && NoDuplicates(c) && (forall l :: l in c ==> l != 0 && Abs(l) <= n && l !in trail && -l !in c)
  }

  ghost predicate Entailed(originals: set<Clause>, cl: Clause) {
    forall m :: Models(m, originals) ==> Satisfies(m, cl)
  }

  lemma RefutedFollows(originals: set<Clause>, cl: Clause)
    requires Refuted(originals, {})
    ensures Entailed(originals, cl)
  {
    hide Models;
    forall m
      ensures !Models(m, originals)
    {
      assert AllHold(m, {});
    }
  }

  /** Refuting the negated literals is the same as deriving the clause. */
  lemma NegatedFollows(originals: set<Clause>, c: seq<int>)
    requires Refuted(originals, Negated(Lits(c))) && 0 !in c
    ensures Entailed(originals, Lits(c))
  {
    hide Models;
    forall m | Models(m, originals)
      ensures Satisfies(m, Lits(c))
    {
      var l :| l in Negated(Lits(c)) && !Holds(m, l);
      assert -l in Lits(c) && Holds(m, -l);
    }
  }

  lemma ForcedMore(originals: set<Clause>, a: set<int>, b: set<int>, trail: seq<int>)
    requires Forced(originals, a, trail) && a <= b
    ensures Forced(originals, b, trail)
  {
  }

  lemma ForcedAssumed(originals: set<Clause>, assumed: set<int>, trail: seq<int>, x: int)
    requires Forced(originals, assumed, trail) && x in assumed
    ensures Forced(originals, assumed, trail + [x])
  {
    LitsAdd(trail, x);
    hide Models;
  }

  lemma BoundedMore(n: int, trail: seq<int>, lits: map<int, seq<int>>, x: int)
    requires Bounded(n, trail, lits) && Abs(x) <= n
    ensures Bounded(n, trail + [x], lits)
  {
  }

  lemma NewAssumption(c: seq<int>, n: int, i: int, before: seq<int>, trail: seq<int>)
    requires 0 <= i < |c| && Fits(c, n, before) && -c[i] !in trail
    requires forall l :: l in trail ==> l in before || -l in c[..i]
    ensures -c[i] != 0 && !IsTrue(trail, -c[i]) && !IsFalse(trail, -c[i]) && -c[i] in Negated(Lits(c)) && Abs(c[i]) <= n
  {
    assert c[i] in c && c[i] in Lits(c);
    assert -(-c[i]) == c[i];
    forall k | 0 <= k < i
      ensures c[k] != -c[i]
    {
      assert c[k] in c && c[i] in c;
    }
  }

  lemma AllFineExtends(trail: seq<int>, x: int, s: Store, n: int)
    requires AllFine(trail, s, n, |trail|) && AllFine(trail, s, n, n) && 0 <= n <= |trail|
    ensures AllFine(trail + [x], s, n, |trail| + 1) && AllFine(trail + [x], s, n, n)
  {
    hide Fine;
    forall id | id in s.live
      ensures id in s.lits && Fine(trail + [x], s.lits[id], n, |trail| + 1) && Fine(trail + [x], s.lits[id], n, n)
    {
      FineExtends(trail, x, s.lits[id], n, |trail|);
      FineExtends(trail, x, s.lits[id], n, n);
    }
  }

  /** After undoing the assumptions everything is as well propagated as before. */
  lemma CutBase(originals: set<Clause>, trail: seq<int>, n: int, s: Store, size: int)
    requires TrailOk(trail) && 0 <= n <= |trail| && AllFine(trail, s, n, n) && Bounded(size, trail, s.lits)
    ensures TrailOk(trail[..n]) && AllFine(trail[..n], s, n, n) && Bounded(size, trail[..n], s.lits)
  {
    hide Fine;
    forall id | id in s.live
      ensures id in s.lits && Fine(trail[..n], s.lits[id], n, n)
    {
      FineCut(trail, n, s.lits[id]);
    }
    assert forall l :: l in trail[..n] ==> l in trail;
  }

  // ----- adding clauses -----

  /** Number of literals that are not false, up to two, and the first of them. */
  method CountOpen(trail: seq<int>, c: seq<int>) returns (count: int, unit: int)
    ensures 0 <= count <= 2
    ensures count == 0 ==> AllFalse(trail, c)
    ensures count == 1 ==> OnlyOpen(trail, c, unit)
    ensures count == 2 && NoDuplicates(c) ==> TwoOpen(trail, c)
  {
    count, unit := 0, 0;
    ghost var first := 0;
    var i := 0;
    while i < |c|
      invariant 0 <= i <= |c| && 0 <= count <= 1
      invariant count == 0 ==> forall k :: 0 <= k < i ==> -c[k] in trail
      invariant count == 1 ==> 0 <= first < i && unit == c[first] && -unit !in trail && forall k :: 0 <= k < i && c[k] != unit ==> -c[k] in trail
    {
      if -c[i] !in trail {
        if count == 1 {
          count := 2;
          assert -c[first] !in trail;
          return;
        }
        count, unit := 1, c[i];
        first := i;
      }
      i := i + 1;
    }
  }

  lemma AllFalseRefutes(originals: set<Clause>, trail: seq<int>, c: seq<int>)
    requires Forced(originals, {}, trail) && Entailed(originals, Lits(c)) && AllFalse(trail, c) && 0 !in c
    ensures Refuted(originals, {})
  {
    hide Models;
    forall m
      ensures !Models(m, originals)
    {
      if Models(m, originals) {
        assert AllHold(m, {});
        forall l | l in Lits(c)
          ensures !Holds(m, l)
        {
          assert -l in Lits(trail);
        }
      }
    }
  }

  /** A clause with one literal left makes it true. */
  lemma UnitStep(originals: set<Clause>, trail: seq<int>, c: seq<int>, unit: int, s: Store, n: int)
    requires TrailOk(trail) && Forced(originals, {}, trail) && Bounded(n, trail, s.lits) && AllFine(trail, s, |trail|, |trail|)
    requires Entailed(originals, Lits(c)) && Fits(c, n, trail) && OnlyOpen(trail, c, unit)
    ensures var t := trail + [unit];
      TrailOk(t) && Forced(originals, {}, t) && Bounded(n, t, s.lits) && AllFine(t, s, |trail|, |t|) && AllFine(t, s, 0, 0)
  {
    hide Fine;
    TrailMore(trail, unit);
    BoundedMore(n, trail, s.lits, unit);
    UnitFollows(originals, trail, c, unit);
    forall id | id in s.live
      ensures id in s.lits && Fine(trail + [unit], s.lits[id], |trail|, |trail| + 1) && Fine(trail + [unit], s.lits[id], 0, 0)
    {
      FineExtends(trail, unit, s.lits[id], |trail|, |trail|);
      FineAtStart(trail + [unit], s.lits[id], trail);
    }
  }

  lemma FineAtStart(t: seq<int>, c: seq<int>, trail: seq<int>)
    requires Fine(trail, c, |trail|, |trail|)
    ensures Fine(t, c, 0, 0)
  {
  }

  lemma UnitFollows(originals: set<Clause>, trail: seq<int>, c: seq<int>, unit: int)
    requires Forced(originals, {}, trail) && Entailed(originals, Lits(c))
    requires forall l :: l in c && l != unit ==> l != 0 && -l in trail
    ensures Forced(originals, {}, trail + [unit])
  {
    hide Models;
    LitsAdd(trail, unit);
    forall m | Models(m, originals)
      ensures Holds(m, unit) && AllHold(m, Lits(trail))
    {
      assert AllHold(m, {});
      forall l | l in Lits(c) && l != unit
        ensures !Holds(m, l)
      {
        assert -l in Lits(trail);
      }
      var l :| l in Lits(c) && Holds(m, l);
    }
  }

  lemma EmptyMeansNone(table: seq<seq<int>>, hashes: map<int, int>, live: set<int>, reduce: (int, int) -> int)
    requires TableOk(table, hashes, live, reduce)
    ensures |table| == 0 ==> |live| == 0
  {
    forall id | id in live
      ensures |table| > 0
    {
      assert Placed(table, hashes, reduce, id);
    }
    if |live| > 0 {
      var id := Member(live);
    }
  }

  // ----- choosing the watches of a new clause -----

  function Exchange(d: seq<int>, i: int, j: int): (r: seq<int>)
    requires 0 <= i < |d| && 0 <= j < |d|
    ensures |r| == |d|
  {
    d[i := d[j]][j := d[i]]
  }

  lemma ExchangeSame(d: seq<int>, i: int, j: int)
    requires 0 <= i < |d| && 0 <= j < |d| && NoDuplicates(d)
    ensures NoDuplicates(Exchange(d, i, j)) && Lits(Exchange(d, i, j)) == Lits(d)
  {
    var r := Exchange(d, i, j);
    forall l
      ensures l in r <==> l in d
    {
      if l in d {
        var k :| 0 <= k < |d| && d[k] == l;
        assert r[if k == i then j else if k == j then i else k] == l;
      }
      if l in r {
        var k :| 0 <= k < |r| && r[k] == l;
        assert d[if k == i then j else if k == j then i else k] == l;
      }
    }
  }

  /** First position from `i` on whose literal is not false. */
  method FirstOpen(trail: seq<int>, d: seq<int>, i: int) returns (j: int)
    requires 0 <= i < |d| && exists k :: i <= k < |d| && -d[k] !in trail
    ensures i <= j < |d| && -d[j] !in trail && forall k :: i <= k < j ==> -d[k] in trail
  {
    j := i;
    while -d[j] in trail
      invariant i <= j < |d| && forall k :: i <= k < j ==> -d[k] in trail
      decreases |d| - j
    {
      j := j + 1;
    }
  }

  /** Moves two literals that are not false to the front. */
  method Arrange(trail: seq<int>, c: seq<int>) returns (d: seq<int>)
    requires NoDuplicates(c) && TwoOpen(trail, c)
    ensures |d| == |c| >= 2 && NoDuplicates(d) && Lits(d) == Lits(c) && -d[0] !in trail && -d[1] !in trail
  {
    hide NoDuplicates;
    ghost var a, b :| 0 <= a < b < |c| && -c[a] !in trail && -c[b] !in trail;
    var j := FirstOpen(trail, c, 0);
    ExchangeSame(c, 0, j);
    d := Exchange(c, 0, j);
    assert d[b] == c[b];
    j := FirstOpen(trail, d, 1);
    ExchangeSame(d, 1, j);
    d := Exchange(d, 1, j);
  }

  lemma ArrangedOk(c: seq<int>, d: seq<int>)
    requires |d| >= 2 && NoDuplicates(d) && Lits(d) == Lits(c) && forall l :: l in c ==> l != 0 && -l !in c
    ensures ClauseOk(d)
  {
    forall l
      ensures l in d <==> l in c
    {
      assert l in Lits(d) <==> l in Lits(c);
    }
    forall i | 0 <= i < |d|
      ensures d[i] != 0
    {
      assert d[i] in d;
    }
  }

  lemma AddedSound(originals: set<Clause>, trail: seq<int>, s: Store, n: int, id: int, c: seq<int>, d: seq<int>)
    requires StoredFollow(originals, s.lits) && Bounded(n, trail, s.lits) && AllFine(trail, s, |trail|, |trail|) && id !in s.lits
    requires Entailed(originals, Lits(c)) && Lits(d) == Lits(c) && |d| >= 2 && -d[0] !in trail && -d[1] !in trail && Known(c, n)
    ensures var t := Added(s, id, d); StoredFollow(originals, t.lits) && Bounded(n, trail, t.lits) && AllFine(trail, t, |trail|, |trail|)
  {
    hide Models, Satisfies;
    var t := Added(s, id, d);
    forall l
      ensures l in d <==> l in c
    {
      assert l in Lits(d) <==> l in Lits(c);
    }
    TrueAnywhere(trail, -d[0]);
    TrueAnywhere(trail, -d[1]);
    assert Fine(trail, d, |trail|, |trail|);
    hide Fine;
    forall x | x in t.live
      ensures x in t.lits && Fine(trail, t.lits[x], |trail|, |trail|)
    {
      assert x != id ==> x in s.live;
    }
  }

  // ----- original clauses -----

  lemma MoreOriginals(originals: set<Clause>, cl: Clause, lits: map<int, seq<int>>, trail: seq<int>)
    ensures StoredFollow(originals, lits) ==> StoredFollow(originals + {cl}, lits)
    ensures Forced(originals, {}, trail) ==> Forced(originals + {cl}, {}, trail)
    ensures Refuted(originals, {}) ==> Refuted(originals + {cl}, {})
  {
    forall m | Models(m, originals + {cl})
      ensures Models(m, originals)
    {
      ModelsSubset(m, originals, originals + {cl});
    }
    hide Models, Satisfies, AllHold;
  }

  lemma OriginalFollows(originals: set<Clause>, cl: Clause)
    requires cl in originals
    ensures Entailed(originals, cl)
  {
  }

  lemma NormalizedFits(c: seq<int>, out: seq<int>, n: int, trail: seq<int>)
    requires Proper(c) && Strict(out) && Lits(out) == Lits(c) && Known(c, n)
    requires Open(trail, out)
    ensures Fits(out, n, trail)
  {
    StrictNoDuplicates(out);
    forall l | l in out
      ensures l in c
    {
      assert l in Lits(out);
    }
  }

  /** A tautological or satisfied clause follows. */
  lemma SatisfiedFollows(originals: set<Clause>, trail: seq<int>, c: seq<int>)
    requires Forced(originals, {}, trail) && Redundant(trail, Lits(c))
    ensures Entailed(originals, Lits(c))
  {
    hide Models, Redundant, Satisfies;
    forall m | Models(m, originals)
      ensures Satisfies(m, Lits(c))
    {
      assert AllHold(m, {});
      RedundantHolds(m, trail, Lits(c));
    }
  }

  // ----- collecting garbage -----

  lemma InStore(s: Store, id: int)
    requires StoreOk(s) && id in s.live
    ensures id in s.lits
  {
    hide EntriesOk, Unique;
    assert Watched(s, id);
  }

  lemma CollectedSound(originals: set<Clause>, trail: seq<int>, s: Store, n: int)
    requires StoreOk(s) && StoredFollow(originals, s.lits) && Bounded(n, trail, s.lits) && AllFine(trail, s, |trail|, |trail|)
    ensures var t := Collected(s); StoredFollow(originals, t.lits) && Bounded(n, trail, t.lits) && AllFine(trail, t, |trail|, |trail|)
  {
    hide Models, Satisfies, Fine, StoreOk;
  }
}
