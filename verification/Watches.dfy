/** Two watched literals: the invariants that let propagation look only at watched clauses, and what
    each way of treating a watch does to them. */
module Watches {
  import opened Cnf
  import opened Extension

  // ----- the trail -----

  /** Literal `l` is among the first `b` literals of the trail. */
  ghost predicate TrueBefore(trail: seq<int>, l: int, b: int) {
    exists i :: 0 <= i < b && i < |trail| && trail[i] == l
  }

  ghost predicate SatBefore(trail: seq<int>, c: seq<int>, b: int) {
    exists l :: l in c && TrueBefore(trail, l, b)
  }

  ghost predicate TrailOk(trail: seq<int>) {
    && (forall i :: 0 <= i < |trail| ==> trail[i] != 0)
    && (forall i, j :: 0 <= i < j < |trail| ==> trail[i] != trail[j] && trail[i] != -trail[j])
  }

  predicate IsTrue(trail: seq<int>, l: int) {
    l in trail
  }

  predicate IsFalse(trail: seq<int>, l: int) {
    -l in trail
  }

  lemma TrueAnywhere(trail: seq<int>, l: int)
    ensures TrueBefore(trail, l, |trail|) <==> l in trail
  {
  }

  lemma TrueExtends(trail: seq<int>, x: int, l: int, b: int)
    requires 0 <= b <= |trail|
    ensures TrueBefore(trail + [x], l, b) <==> TrueBefore(trail, l, b)
    ensures TrueBefore(trail + [x], l, |trail| + 1) <==> TrueBefore(trail, l, |trail|) || l == x
    ensures TrueBefore(trail, l, b) ==> TrueBefore(trail, l, |trail|)
  {
    var t := trail + [x];
    if TrueBefore(t, l, b) {
      var i :| 0 <= i < b && i < |t| && t[i] == l;
      assert trail[i] == l;
    }
    if TrueBefore(trail, l, b) {
      var i :| 0 <= i < b && i < |trail| && trail[i] == l;
      assert t[i] == l;
    }
    if TrueBefore(t, l, |trail| + 1) {
      var i :| 0 <= i < |trail| + 1 && i < |t| && t[i] == l;
      assert i < |trail| ==> trail[i] == l;
    }
    if TrueBefore(trail, l, |trail|) {
      var i :| 0 <= i < |trail| && trail[i] == l;
      assert t[i] == l;
    }
    assert t[|trail|] == x;
  }

  /** Cutting the trail at `n` does not change what is true before `n`. */
  lemma TrueCut(trail: seq<int>, n: int, l: int)
    requires 0 <= n <= |trail|
    ensures TrueBefore(trail[..n], l, n) <==> TrueBefore(trail, l, n)
  {
    if TrueBefore(trail, l, n) {
      var i :| 0 <= i < n && i < |trail| && trail[i] == l;
      assert trail[..n][i] == l;
    }
  }

  // ----- clauses and their watches -----

  ghost predicate ClauseOk(c: seq<int>) {
    |c| >= 2 && Proper(c) && NoDuplicates(c) && forall l :: l in c ==> -l !in c
  }

  /** A watch that was false before `b` is excused by a literal true before `e`. */
  ghost predicate Excused(trail: seq<int>, c: seq<int>, w: int, b: int, e: int) {
    TrueBefore(trail, -w, b) ==> SatBefore(trail, c, e)
  }

  ghost predicate Fine(trail: seq<int>, c: seq<int>, b: int, e: int) {
    |c| >= 2 && Excused(trail, c, c[0], b, e) && Excused(trail, c, c[1], b, e)
  }

  /** A fine clause is neither false nor unit: it is satisfied or has two unassigned literals. */
  lemma FineMeans(trail: seq<int>, c: seq<int>)
    requires ClauseOk(c) && Fine(trail, c, |trail|, |trail|)
    ensures (exists l :: l in c && IsTrue(trail, l)) ||
            (exists i, j :: 0 <= i < j < |c| && !IsFalse(trail, c[i]) && !IsFalse(trail, c[j]) && !IsTrue(trail, c[i]) && !IsTrue(trail, c[j]))
  {
    TrueAnywhere(trail, -c[0]);
    TrueAnywhere(trail, -c[1]);
    if IsFalse(trail, c[0]) || IsFalse(trail, c[1]) {
      var l :| l in c && TrueBefore(trail, l, |trail|);
      TrueAnywhere(trail, l);
    } else if IsTrue(trail, c[0]) {
      assert c[0] in c;
    } else if IsTrue(trail, c[1]) {
      assert c[1] in c;
    } else {
      assert 0 < 1 < |c|;
    }
  }

  lemma SatExtends(trail: seq<int>, x: int, c: seq<int>, b: int)
    requires 0 <= b <= |trail|
    ensures SatBefore(trail + [x], c, b) <==> SatBefore(trail, c, b)
    ensures SatBefore(trail, c, b) ==> SatBefore(trail + [x], c, |trail| + 1)
    ensures x in c ==> SatBefore(trail + [x], c, |trail| + 1)
  {
    if l :| l in c && TrueBefore(trail, l, b) {
      TrueExtends(trail, x, l, b);
    }
    if l :| l in c && TrueBefore(trail + [x], l, b) {
      TrueExtends(trail, x, l, b);
    }
    if x in c {
      TrueExtends(trail, x, x, b);
    }
  }

  /** Assigning another literal keeps clauses fine with respect to what was processed before. */
  lemma FineExtends(trail: seq<int>, x: int, c: seq<int>, b: int, e: int)
    requires 0 <= b <= |trail| && 0 <= e <= |trail| && Fine(trail, c, b, e)
    ensures Fine(trail + [x], c, b, e) && Fine(trail + [x], c, b, |trail| + 1)
  {
    TrueExtends(trail, x, -c[0], b);
    TrueExtends(trail, x, -c[1], b);
    SatExtends(trail, x, c, e);
  }

  lemma FineCut(trail: seq<int>, n: int, c: seq<int>)
    requires 0 <= n <= |trail| && Fine(trail, c, n, n)
    ensures Fine(trail[..n], c, n, n)
  {
    TrueCut(trail, n, -c[0]);
    TrueCut(trail, n, -c[1]);
    if SatBefore(trail, c, n) {
      var l :| l in c && TrueBefore(trail, l, n);
      TrueCut(trail, n, l);
    }
  }

  /** Only the set of literals and the two watches matter. */
  lemma FinePermuted(trail: seq<int>, c: seq<int>, d: seq<int>, b: int, e: int)
    requires Fine(trail, c, b, e) && |d| == |c| && Lits(d) == Lits(c) && d[0] in c[..2] && (d[1] in c[..2] || !TrueBefore(trail, -d[1], b))
    ensures Fine(trail, d, b, e)
  {
    forall l
      ensures l in c <==> l in d
    {
      assert l in Lits(c) <==> l in Lits(d);
    }
    assert forall w :: w in c[..2] ==> w == c[0] || w == c[1];
  }

  // ----- watch lists -----

  /** A watch: a literal of the clause, the size of the clause, and the clause. */
  datatype Watch = Watch(blit: int, size: int, id: int)

  /** Clauses by identity.  Garbage clauses stay until they are collected. */
  datatype Store = Store(lits: map<int, seq<int>>, live: set<int>, watchers: map<int, seq<Watch>>)

  function ListOf(s: Store, l: int): seq<Watch> {
    if l in s.watchers then s.watchers[l] else []
  }

  /** An entry of the list of `l`: a live clause has `l` among its first two literals. */
  ghost predicate EntryOk(s: Store, l: int, e: Watch) {
    && e.id in s.lits && e.size == |s.lits[e.id]| && e.blit in s.lits[e.id] && e.blit != l && l in s.lits[e.id]
    && (e.id in s.live ==> |s.lits[e.id]| >= 2 && (l == s.lits[e.id][0] || l == s.lits[e.id][1]))
  }

  ghost predicate EntriesOk(s: Store) {
    forall l, k :: 0 <= k < |ListOf(s, l)| ==> EntryOk(s, l, ListOf(s, l)[k])
  }

  ghost predicate DistinctIds(ws: seq<Watch>) {
    forall j, k :: 0 <= j < k < |ws| ==> ws[j].id != ws[k].id
  }

  ghost predicate Unique(s: Store) {
    forall l :: l in s.watchers ==> DistinctIds(s.watchers[l])
  }

  ghost predicate Mentions(ws: seq<Watch>, id: int) {
    exists k :: 0 <= k < |ws| && ws[k].id == id
  }

  ghost predicate Watched(s: Store, id: int) {
    && id in s.lits && ClauseOk(s.lits[id])
    && Mentions(ListOf(s, s.lits[id][0]), id) && Mentions(ListOf(s, s.lits[id][1]), id)
  }

  ghost predicate StoreOk(s: Store) {
    && EntriesOk(s) && Unique(s)
    && (forall id :: id in s.live ==> Watched(s, id))
    && (forall id :: id in s.lits ==> ClauseOk(s.lits[id]))
  }

  lemma EntryAt(s: Store, l: int, k: int)
    requires StoreOk(s) && 0 <= k < |ListOf(s, l)|
    ensures EntryOk(s, l, ListOf(s, l)[k]) && ClauseOk(s.lits[ListOf(s, l)[k].id])
  {
    hide ClauseOk, EntryOk;
    assert EntryOk(s, l, ListOf(s, l)[k]);
    assert EntryOk(s, l, ListOf(s, l)[k]) ==> ListOf(s, l)[k].id in s.lits by {
      IdStored(s, l, ListOf(s, l)[k]);
    }
  }

  lemma IdStored(s: Store, l: int, e: Watch)
    ensures EntryOk(s, l, e) ==> e.id in s.lits
  {
  }

  // ----- changing one list -----

  function WithList(s: Store, l: int, ws: seq<Watch>): Store {
    s.(watchers := s.watchers[l := ws])
  }

  /** A list may lose entries of garbage clauses and change blocking literals. */
  ghost predicate Refines(s: Store, l: int, ws: seq<Watch>) {
    && DistinctIds(ws)
    && (forall k :: 0 <= k < |ws| ==> EntryOk(s, l, ws[k]))
    && (forall id :: id in s.live && Mentions(ListOf(s, l), id) ==> Mentions(ws, id))
  }

  lemma WithListOk(s: Store, l: int, ws: seq<Watch>)
    requires StoreOk(s) && Refines(s, l, ws)
    ensures StoreOk(WithList(s, l, ws))
  {
    hide ClauseOk;
    var t := WithList(s, l, ws);
    forall x
      ensures ListOf(t, x) == if x == l then ws else ListOf(s, x)
    {
    }
    forall x, k | 0 <= k < |ListOf(t, x)|
      ensures EntryOk(t, x, ListOf(t, x)[k])
    {
      if x == l {
        assert EntryOk(s, l, ws[k]);
      } else {
        assert EntryOk(s, x, ListOf(s, x)[k]);
      }
    }
    forall id | id in t.live
      ensures Watched(t, id)
    {
      assert Watched(s, id);
    }
  }

  // ----- moving a watch -----

  /** The clause with its other watch first, then `r` (from position `k`), then `-lit` at `k`. */
  function Moved(c: seq<int>, other: int, w: int, k: int): (d: seq<int>)
    requires 2 <= k < |c|
    ensures |d| == |c|
  {
    c[0 := other][1 := c[k]][k := w]
  }

  /** Clause `id` is watched at `c[k]` instead of `w`; its entry leaves the list of `w`. */
  function MoveWatch(s: Store, id: int, w: int, other: int, k: int, rest: seq<Watch>): Store
    requires id in s.lits && 2 <= k < |s.lits[id]|
  {
    var c := s.lits[id];
    var r := c[k];
    s.(lits := s.lits[id := Moved(c, other, w, k)],
       watchers := s.watchers[w := rest][r := ListOf(s, r) + [Watch(w, |c|, id)]])
  }

  lemma MovedAt(c: seq<int>, other: int, w: int, k: int, i: int)
    requires 2 <= k < |c| && 0 <= i < |c|
    ensures Moved(c, other, w, k)[i] == if i == 0 then other else if i == 1 then c[k] else if i == k then w else c[i]
  {
  }

  ghost predicate Pair(c: seq<int>, other: int, w: int) {
    |c| >= 2 && ((other == c[0] && w == c[1]) || (other == c[1] && w == c[0]))
  }

  /** Position in the moved clause that holds the literal at position `i` of the original. */
  function MovedFrom(c: seq<int>, other: int, k: int, i: int): int
    requires |c| >= 2 && i >= 0
  {
    if i < 2 then (if c[i] == other then 0 else k) else if i == k then 1 else i
  }

  lemma MovedMembers(c: seq<int>, other: int, w: int, k: int)
    requires NoDuplicates(c) && 2 <= k < |c| && Pair(c, other, w)
    ensures forall l :: l in Moved(c, other, w, k) <==> l in c
  {
    var d := Moved(c, other, w, k);
    forall i | 0 <= i < |c|
      ensures d[i] in c
    {
      MovedAt(c, other, w, k, i);
    }
    forall i | 0 <= i < |c|
      ensures c[i] in d
    {
      var j := MovedFrom(c, other, k, i);
      MovedAt(c, other, w, k, j);
      assert d[j] == c[i];
    }
  }

  lemma MovedDistinct(c: seq<int>, other: int, w: int, k: int)
    requires NoDuplicates(c) && 2 <= k < |c| && Pair(c, other, w)
    ensures NoDuplicates(Moved(c, other, w, k))
  {
    var d := Moved(c, other, w, k);
    hide Moved;
    forall i, j | 0 <= i < j < |d|
      ensures d[i] != d[j]
    {
      MovedAt(c, other, w, k, i);
      MovedAt(c, other, w, k, j);
    }
  }

  lemma MovedLits(c: seq<int>, other: int, w: int, k: int)
    requires ClauseOk(c) && 2 <= k < |c| && Pair(c, other, w)
    ensures Lits(Moved(c, other, w, k)) == Lits(c) && ClauseOk(Moved(c, other, w, k))
  {
    MovedMembers(c, other, w, k);
    MovedDistinct(c, other, w, k);
    hide Moved;
    var d := Moved(c, other, w, k);
    forall i | 0 <= i < |d|
      ensures d[i] != 0
    {
      assert d[i] in d && d[i] in c;
    }
  }

  /** The list of `w` without the entry of clause `id`. */
  ghost predicate Removes(ws: seq<Watch>, rest: seq<Watch>, id: int) {
    && DistinctIds(rest) && (forall k :: 0 <= k < |rest| ==> rest[k] in ws && rest[k].id != id)
    && forall x :: x != id && Mentions(ws, x) ==> Mentions(rest, x)
  }

  ghost predicate Movable(s: Store, id: int, w: int, other: int, k: int, rest: seq<Watch>) {
    && StoreOk(s) && id in s.live && id in s.lits && ClauseOk(s.lits[id]) && 2 <= k < |s.lits[id]|
    && Pair(s.lits[id], other, w)
    && Removes(ListOf(s, w), rest, id)
  }

  lemma MoveLists(s: Store, id: int, w: int, other: int, k: int, rest: seq<Watch>, x: int)
    requires Movable(s, id, w, other, k, rest)
    ensures var t := MoveWatch(s, id, w, other, k, rest); var r := s.lits[id][k];
      && r != w && r != other
      && ListOf(t, x) == if x == r then ListOf(s, r) + [Watch(w, |s.lits[id]|, id)] else if x == w then rest else ListOf(s, x)
  {
    hide StoreOk, Removes;
    var c := s.lits[id];
    assert c[k] != c[0] && c[k] != c[1];
  }

  lemma MoveEntries(s: Store, id: int, w: int, other: int, k: int, rest: seq<Watch>)
    requires Movable(s, id, w, other, k, rest)
    ensures EntriesOk(MoveWatch(s, id, w, other, k, rest))
  {
    var t, c := MoveWatch(s, id, w, other, k, rest), s.lits[id];
    MovedLits(c, other, w, k);
    forall x, n | 0 <= n < |ListOf(t, x)|
      ensures EntryOk(t, x, ListOf(t, x)[n])
    {
      MoveLists(s, id, w, other, k, rest, x);
      MoveEntry(s, id, w, other, k, rest, x, n);
    }
  }

  /** No list but those of its two watches mentions a live clause. */
  lemma OnlyWatches(s: Store, id: int, x: int)
    requires EntriesOk(s) && id in s.live && id in s.lits && |s.lits[id]| >= 2 && Mentions(ListOf(s, x), id)
    ensures x == s.lits[id][0] || x == s.lits[id][1]
  {
    var n :| 0 <= n < |ListOf(s, x)| && ListOf(s, x)[n].id == id;
    assert EntryOk(s, x, ListOf(s, x)[n]);
  }

  lemma MoveEntry(s: Store, id: int, w: int, other: int, k: int, rest: seq<Watch>, x: int, n: int)
    requires Movable(s, id, w, other, k, rest) && Lits(Moved(s.lits[id], other, w, k)) == Lits(s.lits[id])
    requires var t := MoveWatch(s, id, w, other, k, rest); 0 <= n < |ListOf(t, x)|
    ensures var t := MoveWatch(s, id, w, other, k, rest); EntryOk(t, x, ListOf(t, x)[n])
  {
    MoveLists(s, id, w, other, k, rest, x);
    var t, c := MoveWatch(s, id, w, other, k, rest), s.lits[id];
    var r, d := c[k], Moved(c, other, w, k);
    forall l
      ensures l in c <==> l in d
    {
      assert l in Lits(c) <==> l in Lits(d);
    }
    var e := ListOf(t, x)[n];
    if x == r && n == |ListOf(s, r)| {
      assert e == Watch(w, |c|, id) && d[1] == r;
    } else {
      assert e in ListOf(s, x);
      var j :| 0 <= j < |ListOf(s, x)| && ListOf(s, x)[j] == e;
      assert EntryOk(s, x, e);
      if e.id == id {
        assert Mentions(ListOf(s, x), id);
        OnlyWatches(s, id, x);
        assert x == other && d[0] == other;
      }
    }
  }

  lemma MoveUnique(s: Store, id: int, w: int, other: int, k: int, rest: seq<Watch>)
    requires Movable(s, id, w, other, k, rest)
    ensures Unique(MoveWatch(s, id, w, other, k, rest))
  {
    var t, c := MoveWatch(s, id, w, other, k, rest), s.lits[id];
    var r := c[k];
    MoveLists(s, id, w, other, k, rest, r);
    if Mentions(ListOf(s, r), id) {
      OnlyWatches(s, id, r);
    }
    assert DistinctIds(ListOf(t, r)) by {
      forall j | 0 <= j < |ListOf(s, r)|
        ensures ListOf(s, r)[j].id != id
      {
      }
    }
    forall x | x in t.watchers
      ensures DistinctIds(t.watchers[x])
    {
      MoveLists(s, id, w, other, k, rest, x);
      assert t.watchers[x] == ListOf(t, x);
      if x != r && x != w {
        assert x in s.watchers;
      }
    }
  }

  lemma MoveWatched(s: Store, id: int, w: int, other: int, k: int, rest: seq<Watch>, x: int)
    requires Movable(s, id, w, other, k, rest) && x in s.live
    ensures Watched(MoveWatch(s, id, w, other, k, rest), x)
  {
    hide EntriesOk, Unique;
    var t, c := MoveWatch(s, id, w, other, k, rest), s.lits[id];
    var r, d := c[k], Moved(c, other, w, k);
    MovedLits(c, other, w, k);
    MoveLists(s, id, w, other, k, rest, r);
    assert Watched(s, x);
    if x == id {
      assert d[0] == other && d[1] == r && t.lits[x] == d;
      MoveLists(s, id, w, other, k, rest, other);
      var n := |ListOf(s, r)|;
      assert ListOf(t, r)[n].id == id;
    } else {
      MoveMentions(s, id, w, other, k, rest, x, s.lits[x][0]);
      MoveMentions(s, id, w, other, k, rest, x, s.lits[x][1]);
    }
  }

  lemma MoveMentions(s: Store, id: int, w: int, other: int, k: int, rest: seq<Watch>, x: int, l: int)
    requires Movable(s, id, w, other, k, rest) && x != id && Mentions(ListOf(s, l), x)
    ensures Mentions(ListOf(MoveWatch(s, id, w, other, k, rest), l), x)
  {
    hide EntriesOk, Unique, ClauseOk;
    MoveLists(s, id, w, other, k, rest, l);
    var t := MoveWatch(s, id, w, other, k, rest);
    if l == s.lits[id][k] {
      var n :| 0 <= n < |ListOf(s, l)| && ListOf(s, l)[n].id == x;
      assert ListOf(t, l)[n].id == x;
    }
  }

  /** Moving a watch keeps all lists in order. */
  lemma MoveWatchOk(s: Store, id: int, w: int, other: int, k: int, rest: seq<Watch>)
    requires Movable(s, id, w, other, k, rest)
    ensures StoreOk(MoveWatch(s, id, w, other, k, rest))
  {
    MoveEntries(s, id, w, other, k, rest);
    MoveUnique(s, id, w, other, k, rest);
    var t := MoveWatch(s, id, w, other, k, rest);
    forall x | x in t.live
      ensures Watched(t, x)
    {
      MoveWatched(s, id, w, other, k, rest, x);
    }
    MovedLits(s.lits[id], other, w, k);
    hide EntriesOk, Unique, Watched, ClauseOk, Moved;
  }

  // ----- storing a clause -----

  /** Appends a watch to the list of `l`. */
  function PushedWatch(watchers: map<int, seq<Watch>>, l: int, w: Watch): map<int, seq<Watch>> {
    watchers[l := (if l in watchers then watchers[l] else []) + [w]]
  }

  function Added(s: Store, id: int, d: seq<int>): Store
    requires |d| >= 2
  {
    Store(s.lits[id := d], s.live + {id}, PushedWatch(PushedWatch(s.watchers, d[0], Watch(d[1], |d|, id)), d[1], Watch(d[0], |d|, id)))
  }

  lemma AddedLists(s: Store, id: int, d: seq<int>, x: int)
    requires ClauseOk(d)
    ensures ListOf(Added(s, id, d), x) ==
            if x == d[0] then ListOf(s, x) + [Watch(d[1], |d|, id)] else if x == d[1] then ListOf(s, x) + [Watch(d[0], |d|, id)] else ListOf(s, x)
  {
    assert d[0] != d[1];
  }

  lemma AddedEntry(s: Store, id: int, d: seq<int>, x: int, n: int)
    requires StoreOk(s) && id !in s.lits && ClauseOk(d) && 0 <= n < |ListOf(Added(s, id, d), x)|
    ensures EntryOk(Added(s, id, d), x, ListOf(Added(s, id, d), x)[n])
  {
    hide Unique, Watched;
    AddedLists(s, id, d, x);
    assert d[0] != d[1] && d[0] in d && d[1] in d;
    if n < |ListOf(s, x)| {
      assert EntryOk(s, x, ListOf(s, x)[n]);
    }
  }

  lemma AddedDistinct(s: Store, id: int, d: seq<int>, x: int)
    requires StoreOk(s) && id !in s.lits && ClauseOk(d)
    ensures DistinctIds(ListOf(Added(s, id, d), x))
  {
    hide Watched;
    AddedLists(s, id, d, x);
    forall k | 0 <= k < |ListOf(s, x)|
      ensures ListOf(s, x)[k].id != id
    {
      assert EntryOk(s, x, ListOf(s, x)[k]);
    }
  }

  lemma AddedMentions(s: Store, id: int, d: seq<int>, x: int, l: int)
    requires ClauseOk(d) && Mentions(ListOf(s, l), x)
    ensures Mentions(ListOf(Added(s, id, d), l), x)
  {
    AddedLists(s, id, d, l);
    var k :| 0 <= k < |ListOf(s, l)| && ListOf(s, l)[k].id == x;
    assert ListOf(Added(s, id, d), l)[k].id == x;
  }

  lemma AddedWatched(s: Store, id: int, d: seq<int>, x: int)
    requires StoreOk(s) && id !in s.lits && ClauseOk(d) && (x in s.live || x == id)
    ensures Watched(Added(s, id, d), x)
  {
    hide EntriesOk, Unique;
    var t := Added(s, id, d);
    if x == id {
      AddedLists(s, id, d, d[0]);
      AddedLists(s, id, d, d[1]);
      assert ListOf(t, d[0])[|ListOf(s, d[0])|].id == id;
      assert ListOf(t, d[1])[|ListOf(s, d[1])|].id == id;
    } else {
      assert Watched(s, x);
      AddedMentions(s, id, d, x, s.lits[x][0]);
      AddedMentions(s, id, d, x, s.lits[x][1]);
    }
  }

  lemma AddedOk(s: Store, id: int, d: seq<int>)
    requires StoreOk(s) && id !in s.lits && ClauseOk(d)
    ensures StoreOk(Added(s, id, d))
  {
    var t := Added(s, id, d);
    forall x, n | 0 <= n < |ListOf(t, x)|
      ensures EntryOk(t, x, ListOf(t, x)[n])
    {
      AddedEntry(s, id, d, x, n);
    }
    forall x | x in t.watchers
      ensures DistinctIds(t.watchers[x])
    {
      AddedDistinct(s, id, d, x);
      assert t.watchers[x] == ListOf(t, x);
    }
    forall x | x in t.live
      ensures Watched(t, x)
    {
      AddedWatched(s, id, d, x);
    }
    hide EntryOk, DistinctIds, Watched, ClauseOk;
  }

  // ----- garbage -----

  /** Fewer live clauses. */
  lemma RetireOk(s: Store, live: set<int>)
    requires StoreOk(s) && live <= s.live
    ensures StoreOk(s.(live := live))
  {
    hide ClauseOk, Mentions, DistinctIds;
    var t := s.(live := live);
    assert forall x :: ListOf(t, x) == ListOf(s, x);
    forall x, n | 0 <= n < |ListOf(t, x)|
      ensures EntryOk(t, x, ListOf(t, x)[n])
    {
      assert EntryOk(s, x, ListOf(s, x)[n]);
    }
    forall x | x in t.live
      ensures Watched(t, x)
    {
      assert Watched(s, x);
    }
  }

  /** The entries of live clauses. */
  function LiveEntries(ws: seq<Watch>, live: set<int>): seq<Watch> {
    if ws == [] then []
    else
      var n := |ws| - 1;
      LiveEntries(ws[..n], live) + if ws[n].id in live then [ws[n]] else []
  }

  lemma {:induction false} LiveEntriesMembers(ws: seq<Watch>, live: set<int>, e: Watch)
    ensures e in LiveEntries(ws, live) <==> e in ws && e.id in live
  {
    if ws != [] {
      var n := |ws| - 1;
      LiveEntriesMembers(ws[..n], live, e);
      assert ws == ws[..n] + [ws[n]];
    }
  }

  lemma {:induction false} LiveEntriesDistinct(ws: seq<Watch>, live: set<int>)
    requires DistinctIds(ws)
    ensures DistinctIds(LiveEntries(ws, live))
  {
    if ws != [] {
      var n := |ws| - 1;
      LiveEntriesDistinct(ws[..n], live);
      var r := LiveEntries(ws[..n], live);
      forall k | 0 <= k < |r|
        ensures r[k].id != ws[n].id
      {
        LiveEntriesMembers(ws[..n], live, r[k]);
        var j :| 0 <= j < n && ws[j] == r[k];
      }
    }
  }

  /** Collecting garbage: its watches and clauses disappear. */
  function Restricted(lits: map<int, seq<int>>, live: set<int>): map<int, seq<int>> {
    map id | id in lits && id in live :: lits[id]
  }

  function Swept(watchers: map<int, seq<Watch>>, live: set<int>): map<int, seq<Watch>> {
    map l | l in watchers :: LiveEntries(watchers[l], live)
  }

  function Collected(s: Store): Store {
    Store(Restricted(s.lits, s.live), s.live, Swept(s.watchers, s.live))
  }

  lemma CollectedMentions(s: Store, id: int, l: int)
    requires id in s.live && Mentions(ListOf(s, l), id)
    ensures Mentions(ListOf(Collected(s), l), id)
  {
    var k :| 0 <= k < |ListOf(s, l)| && ListOf(s, l)[k].id == id;
    var e := ListOf(s, l)[k];
    LiveEntriesMembers(s.watchers[l], s.live, e);
    var t := ListOf(Collected(s), l);
    assert e in t;
    var j :| 0 <= j < |t| && t[j] == e;
  }

  lemma CollectedOk(s: Store)
    requires StoreOk(s)
    ensures StoreOk(Collected(s))
  {
    hide ClauseOk;
    var t := Collected(s);
    forall x, n | 0 <= n < |ListOf(t, x)|
      ensures EntryOk(t, x, ListOf(t, x)[n])
    {
      var e := ListOf(t, x)[n];
      LiveEntriesMembers(s.watchers[x], s.live, e);
      var j :| 0 <= j < |ListOf(s, x)| && ListOf(s, x)[j] == e;
      assert EntryOk(s, x, ListOf(s, x)[j]);
    }
    forall x | x in t.watchers
      ensures DistinctIds(t.watchers[x])
    {
      LiveEntriesDistinct(s.watchers[x], s.live);
    }
    forall id | id in t.live
      ensures Watched(t, id)
    {
      assert Watched(s, id);
      CollectedMentions(s, id, s.lits[id][0]);
      CollectedMentions(s, id, s.lits[id][1]);
    }
  }
}
