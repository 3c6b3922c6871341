/** Sorted literal lists: the canonical form in which the checker hashes and compares clauses. */
module LitOrder {
  import opened Cnf
  import opened Extension

  /** By variable, then by sign. */
  predicate Less(a: int, b: int) {
    Abs(a) < Abs(b) || (Abs(a) == Abs(b) && a < b)
  }

  predicate AtMost(a: int, b: int) {
    a == b || Less(a, b)
  }

  ghost predicate Sorted(c: seq<int>) {
    forall i, j :: 0 <= i < j < |c| ==> AtMost(c[i], c[j])
  }

  ghost predicate Strict(c: seq<int>) {
    forall i, j :: 0 <= i < j < |c| ==> Less(c[i], c[j])
  }

  function Insert(x: int, c: seq<int>): (r: seq<int>)
    ensures |r| == |c| + 1 && forall y :: y in r <==> y == x || y in c
  {
    if c == [] then [x]
    else if AtMost(x, c[0]) then [x] + c
    else
      assert c == [c[0]] + c[1..];
      [c[0]] + Insert(x, c[1..])
  }

  lemma {:induction false} InsertSorted(x: int, c: seq<int>)
    requires Sorted(c)
    ensures Sorted(Insert(x, c))
  {
    if c != [] {
      forall j | 0 <= j < |c|
        ensures AtMost(c[0], c[j])
      {
      }
      if AtMost(x, c[0]) {
        ConsSorted(x, c);
      } else {
        InsertSorted(x, c[1..]);
        ConsSorted(c[0], Insert(x, c[1..]));
      }
    }
  }

  lemma ConsSorted(x: int, c: seq<int>)
    requires Sorted(c) && forall y :: y in c ==> AtMost(x, y)
    ensures Sorted([x] + c)
  {
    var d := [x] + c;
    forall i, j | 0 <= i < j < |d|
      ensures AtMost(d[i], d[j])
    {
      assert d[j] == c[j - 1] && c[j - 1] in c;
      if i > 0 {
        assert d[i] == c[i - 1];
      }
    }
  }

  /** Any sorting algorithm will do. */
  function Sort(c: seq<int>): (r: seq<int>)
    ensures |r| == |c| && forall y :: y in r <==> y in c
  {
    if c == [] then []
    else
      assert c == [c[0]] + c[1..];
      Insert(c[0], Sort(c[1..]))
  }

  lemma {:induction false} SortSorted(c: seq<int>)
    ensures Sorted(Sort(c))
  {
    if c != [] {
      SortSorted(c[1..]);
      InsertSorted(c[0], Sort(c[1..]));
    }
  }

  lemma StrictNoDuplicates(c: seq<int>)
    requires Strict(c)
    ensures NoDuplicates(c)
  {
  }

  /** A set of literals has only one strictly sorted list. */
  lemma {:induction false} StrictUnique(c: seq<int>, d: seq<int>)
    requires Strict(c) && Strict(d) && Lits(c) == Lits(d)
    ensures c == d
  {
    StrictNoDuplicates(c);
    StrictNoDuplicates(d);
    LitsSize(c);
    LitsSize(d);
    if c != [] {
      assert c[0] in Lits(c) && d[0] in Lits(d);
      SmallestFirst(c, d);
      var c1, d1 := c[1..], d[1..];
      assert c == [c[0]] + c1 && d == [d[0]] + d1;
      assert Lits(c1) == Lits(c) - {c[0]} && Lits(d1) == Lits(d) - {d[0]};
      StrictUnique(c1, d1);
    }
  }

  lemma SmallestFirst(c: seq<int>, d: seq<int>)
    requires Strict(c) && Strict(d) && c != [] && d != [] && c[0] in d && d[0] in c
    ensures c[0] == d[0]
  {
    var i :| 0 <= i < |d| && d[i] == c[0];
    var j :| 0 <= j < |c| && c[j] == d[0];
    assert AtMost(c[0], c[j]) && AtMost(d[0], d[i]);
  }

  /** The clause is true on the trail or a tautology. */
  ghost predicate Redundant(trail: seq<int>, cl: Clause) {
    exists l :: l in cl && l != 0 && (l in trail || -l in cl)
  }

  /** No literal true, none complementary. */
  ghost predicate Open(trail: seq<int>, c: seq<int>) {
    forall l :: l in c ==> l !in trail && (l != 0 ==> -l !in c)
  }

  lemma OpenNotRedundant(trail: seq<int>, c: seq<int>)
    requires Open(trail, c)
    ensures !Redundant(trail, Lits(c))
  {
  }

  lemma SameLits(s: seq<int>, c: seq<int>)
    requires forall y :: y in s <==> y in c
    ensures Lits(s) == Lits(c)
  {
    forall l
      ensures l in Lits(s) <==> l in Lits(c)
    {
    }
  }

  lemma NothingOpen(trail: seq<int>)
    ensures Open(trail, []) && Strict([])
  {
  }

  lemma RedundantBy(trail: seq<int>, c: seq<int>, l: int)
    requires l in c && l != 0 && (l in trail || -l in c)
    ensures Redundant(trail, Lits(c))
  {
    assert l in Lits(c) && (-l in c ==> -l in Lits(c));
  }

  lemma OpenMore(trail: seq<int>, out: seq<int>, lit: int)
    requires Open(trail, out) && lit !in trail && lit != 0 && -lit !in out
    ensures Open(trail, out + [lit])
  {
    forall l | l in out + [lit]
      ensures l !in trail && (l != 0 ==> -l !in out + [lit])
    {
      assert l == lit || l in out;
      assert -(-lit) == lit && -(-l) == l;
    }
  }

  /** Sorts and removes duplicates; reports a clause that is tautological or contains a true literal. */
  method Normalize(c: seq<int>, trail: seq<int>) returns (taut: bool, out: seq<int>)
    requires Proper(c)
    ensures taut <==> Redundant(trail, Lits(c))
    ensures !taut ==> Strict(out) && Lits(out) == Lits(c) && Open(trail, out)
  {
    var s := Sort(c);
    SortSorted(c);
    out := [];
    NothingOpen(trail);
    hide Redundant, Open, Sorted, Strict;
    var i := 0;
    while i < |s|
      invariant 0 <= i <= |s| && Strict(out) && Lits(out) == Lits(s[..i])
      invariant Open(trail, out)
      invariant if i == 0 then out == [] else out != [] && out[|out| - 1] == s[i - 1]
    {
      var lit := s[i];
      assert lit in s && s[..i + 1] == s[..i] + [lit];
      LitsAdd(s[..i], lit);
      if out != [] && lit == out[|out| - 1] {
      } else if out != [] && lit == -out[|out| - 1] {
        assert out[|out| - 1] == s[i - 1] && s[i - 1] in s;
        RedundantBy(trail, c, lit);
        return true, out;
      } else if lit in trail {
        RedundantBy(trail, c, lit);
        return true, out;
      } else {
        LitsAdd(out, lit);
        AppendStrict(s, i, out, lit);
        OpenMore(trail, out, lit);
        out := out + [lit];
      }
      i := i + 1;
    }
    assert s[..|s|] == s;
    SameLits(s, c);
    OpenNotRedundant(trail, out);
    taut := false;
  }

  /** The next new literal is larger than all kept ones and complementary to none. */
  lemma AppendStrict(s: seq<int>, i: int, out: seq<int>, lit: int)
    requires Sorted(s) && 0 <= i < |s| && lit == s[i] && Strict(out)
    requires if i == 0 then out == [] else out != [] && out[|out| - 1] == s[i - 1]
    requires out != [] ==> lit != out[|out| - 1] && lit != -out[|out| - 1]
    ensures Strict(out + [lit]) && (lit != 0 ==> -lit !in out) && lit !in out
  {
    forall k | 0 <= k < |out|
      ensures Less(out[k], lit) && out[k] != -lit
    {
      var last := out[|out| - 1];
      assert AtMost(s[i - 1], s[i]);
      assert k < |out| - 1 ==> Less(out[k], last);
    }
  }
}
