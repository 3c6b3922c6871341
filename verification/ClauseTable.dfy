/** The hash table of live clauses.  A clause is found by its set of literals whatever the order in
    which they are stored. */
module ClauseTable {
  import opened Cnf
  import opened Extension

  ghost predicate ReduceOk(reduce: (int, int) -> int) {
    forall h: int, n: int :: n > 0 ==> 0 <= reduce(h, n) < n
  }

  ghost predicate InBucket(table: seq<seq<int>>, b: int, id: int) {
    0 <= b < |table| && id in table[b]
  }

  /** Bucket `b` holds only live clauses that belong there. */
  ghost predicate BucketsOk(table: seq<seq<int>>, hashes: map<int, int>, live: set<int>, reduce: (int, int) -> int) {
    forall b, id :: InBucket(table, b, id) ==> id in live && id in hashes && b == reduce(hashes[id], |table|)
  }

  ghost predicate Placed(table: seq<seq<int>>, hashes: map<int, int>, reduce: (int, int) -> int, id: int) {
    id in hashes && InBucket(table, reduce(hashes[id], |table|), id)
  }

  ghost predicate TableOk(table: seq<seq<int>>, hashes: map<int, int>, live: set<int>, reduce: (int, int) -> int) {
    BucketsOk(table, hashes, live, reduce) && forall id :: id in live ==> Placed(table, hashes, reduce, id)
  }

  /** Are all literals of `d` among the marked ones? */
  method AllMarked(d: seq<int>, marks: set<int>) returns (all: bool)
    ensures all <==> Lits(d) <= marks
  {
    var i := 0;
    while i < |d|
      invariant 0 <= i <= |d| && forall k :: 0 <= k < i ==> d[k] in marks
    {
      if d[i] !in marks {
        assert d[i] in Lits(d);
        return false;
      }
      i := i + 1;
    }
    all := true;
  }

  /** Walks the collision chain; -1 if no clause of this hash has exactly these literals. */
  method FindClause(table: seq<seq<int>>, hashes: map<int, int>, lits: map<int, seq<int>>, c: seq<int>, h: int, reduce: (int, int) -> int, ghost live: set<int>)
    returns (r: int)
    requires ReduceOk(reduce) && TableOk(table, hashes, live, reduce) && NoDuplicates(c)
    requires forall id :: id in live ==> id >= 0 && id in lits && NoDuplicates(lits[id])
    ensures r != -1 ==> r in live && Lits(lits[r]) == Lits(c)
    ensures r == -1 ==> forall id :: id in live && id in hashes && hashes[id] == h ==> Lits(lits[id]) != Lits(c)
  {
    hide NoDuplicates, Lits;
    if |table| == 0 {
      return -1;
    }
    LitsSize(c);
    var b := reduce(h, |table|);
    var chain := table[b];
    var i := 0;
    while i < |chain|
      invariant 0 <= i <= |chain|
      invariant forall k :: 0 <= k < i && chain[k] in lits ==> Lits(lits[chain[k]]) != Lits(c) || (chain[k] in hashes && hashes[chain[k]] != h)
    {
      var id := chain[i];
      assert InBucket(table, b, id);
      LitsSize(lits[id]);
      if hashes[id] == h && |lits[id]| == |c| {
        var all := AllMarked(lits[id], Lits(c));
        if all {
          SameSizeSubset(Lits(lits[id]), Lits(c));
          return id;
        }
      }
      i := i + 1;
    }
    r := -1;
    forall id | id in live && id in hashes && hashes[id] == h
      ensures Lits(lits[id]) != Lits(c)
    {
      assert Placed(table, hashes, reduce, id);
      var k :| 0 <= k < |chain| && chain[k] == id;
    }
  }

  /** Adds a clause at the front of its chain. */
  lemma AddClause(table: seq<seq<int>>, hashes: map<int, int>, live: set<int>, reduce: (int, int) -> int, id: int, h: int)
    requires ReduceOk(reduce) && TableOk(table, hashes, live, reduce) && |table| > 0 && id !in live
    ensures var b := reduce(h, |table|); 0 <= b < |table| && TableOk(table[b := [id] + table[b]], hashes[id := h], live + {id}, reduce)
  {
    var b := reduce(h, |table|);
    var t, hs := table[b := [id] + table[b]], hashes[id := h];
    forall a, x
      ensures InBucket(t, a, x) <==> InBucket(table, a, x) || (a == b && x == id)
    {
    }
    hide InBucket;
    forall x | x in live + {id}
      ensures Placed(t, hs, reduce, x)
    {
      assert x != id ==> Placed(table, hashes, reduce, x);
    }
  }

  function Without(c: seq<int>, id: int): (r: seq<int>)
    ensures forall x :: x in r <==> x in c && x != id
  {
    if c == [] then []
    else
      assert c == [c[0]] + c[1..];
      if c[0] == id then Without(c[1..], id) else [c[0]] + Without(c[1..], id)
  }

  /** Unlinks a clause from its chain. */
  lemma RemoveClause(table: seq<seq<int>>, hashes: map<int, int>, live: set<int>, reduce: (int, int) -> int, id: int)
    requires ReduceOk(reduce) && TableOk(table, hashes, live, reduce) && id in live
    ensures id in hashes && |table| > 0
    ensures var b := reduce(hashes[id], |table|); 0 <= b < |table| && TableOk(table[b := Without(table[b], id)], hashes, live - {id}, reduce)
  {
    assert Placed(table, hashes, reduce, id);
    var b := reduce(hashes[id], |table|);
    var t := table[b := Without(table[b], id)];
    forall a, x
      ensures InBucket(t, a, x) <==> InBucket(table, a, x) && x != id
    {
      if InBucket(table, a, x) && x == id {
        assert a == b;
      }
    }
    hide InBucket, Without;
    forall x | x in live - {id}
      ensures Placed(t, hashes, reduce, x)
    {
      assert Placed(table, hashes, reduce, x);
    }
  }

  /** Doubles the table and moves every chain. */
  method Enlarge(table: seq<seq<int>>, hashes: map<int, int>, reduce: (int, int) -> int, ghost live: set<int>) returns (t: seq<seq<int>>)
    requires ReduceOk(reduce) && TableOk(table, hashes, live, reduce)
    ensures TableOk(t, hashes, live, reduce) && |t| == if |table| == 0 then 1 else 2 * |table|
  {
    hide TableOk, ReduceOk;
    var n := if |table| == 0 then 1 else 2 * |table|;
    t := seq(n, _ => []);
    ghost var moved: set<int> := {};
    EmptyTable(t, hashes, reduce);
    var i := 0;
    while i < |table|
      invariant 0 <= i <= |table| && |t| == n && TableOk(t, hashes, moved, reduce)
      invariant forall b, id :: 0 <= b < i && InBucket(table, b, id) ==> id in moved
      invariant moved <= live
    {
      var j := 0;
      while j < |table[i]|
        invariant 0 <= j <= |table[i]| && |t| == n && TableOk(t, hashes, moved, reduce)
        invariant forall b, id :: 0 <= b < i && InBucket(table, b, id) ==> id in moved
        invariant forall k :: 0 <= k < j ==> table[i][k] in moved
        invariant moved <= live
      {
        var id := table[i][j];
        BucketMember(table, hashes, live, reduce, i, id);
        RelinkClause(t, hashes, moved, reduce, id);
        var b := reduce(hashes[id], n);
        t := t[b := [id] + t[b]];
        moved := moved + {id};
        j := j + 1;
      }
      i := i + 1;
    }
    AllMoved(table, t, hashes, live, moved, reduce);
  }

  lemma EmptyTable(t: seq<seq<int>>, hashes: map<int, int>, reduce: (int, int) -> int)
    requires forall b :: 0 <= b < |t| ==> t[b] == []
    ensures TableOk(t, hashes, {}, reduce)
  {
  }

  lemma BucketMember(table: seq<seq<int>>, hashes: map<int, int>, live: set<int>, reduce: (int, int) -> int, i: int, id: int)
    requires TableOk(table, hashes, live, reduce) && 0 <= i < |table| && id in table[i]
    ensures id in live && id in hashes
  {
    assert InBucket(table, i, id);
  }

  /** Linking a clause, whether or not it is already there. */
  lemma RelinkClause(t: seq<seq<int>>, hashes: map<int, int>, moved: set<int>, reduce: (int, int) -> int, id: int)
    requires ReduceOk(reduce) && TableOk(t, hashes, moved, reduce) && |t| > 0 && id in hashes
    ensures var b := reduce(hashes[id], |t|); 0 <= b < |t| && TableOk(t[b := [id] + t[b]], hashes, moved + {id}, reduce)
  {
    var h := hashes[id];
    assert 0 <= reduce(h, |t|) < |t|;
    var b := reduce(h, |t|);
    var u := t[b := [id] + t[b]];
    forall a, x
      ensures InBucket(u, a, x) <==> InBucket(t, a, x) || (a == b && x == id)
    {
    }
    hide InBucket;
    forall x | x in moved + {id}
      ensures Placed(u, hashes, reduce, x)
    {
      assert x in moved ==> Placed(t, hashes, reduce, x);
    }
  }

  lemma AllMoved(table: seq<seq<int>>, t: seq<seq<int>>, hashes: map<int, int>, live: set<int>, moved: set<int>, reduce: (int, int) -> int)
    requires TableOk(table, hashes, live, reduce) && TableOk(t, hashes, moved, reduce) && moved <= live
    requires forall b, id :: 0 <= b < |table| && InBucket(table, b, id) ==> id in moved
    ensures TableOk(t, hashes, live, reduce)
  {
    forall id | id in live
      ensures id in moved
    {
      assert Placed(table, hashes, reduce, id);
    }
    assert moved == live;
  }
}
