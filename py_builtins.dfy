/**
 * The Python built-ins the simulator applies to its list of trial totals:
 * `sum`, `min`, `max` and `sorted`, over exact reals.
 */
module PyBuiltins {
  import opened RealArith

  function Sum(s: seq<real>): real {
    if s == [] then 0.0 else s[0] + Sum(s[1..])
  }

  function SumNat(s: seq<nat>): nat {
    if s == [] then 0 else s[0] + SumNat(s[1..])
  }

  /** `min(s)`: an element of `s` that no element undercuts. */
  function SeqMin(s: seq<real>): (r: real)
    requires |s| > 0
    ensures r in s
    ensures forall k :: 0 <= k < |s| ==> r <= s[k]
  {
    if |s| == 1 then s[0]
    else
      var rest := SeqMin(s[1..]);
      if s[0] <= rest then s[0] else rest
  }

  /** `max(s)`: an element of `s` that no element exceeds. */
  function SeqMax(s: seq<real>): (r: real)
    requires |s| > 0
    ensures r in s
    ensures forall k :: 0 <= k < |s| ==> s[k] <= r
  {
    if |s| == 1 then s[0]
    else
      var rest := SeqMax(s[1..]);
      if s[0] >= rest then s[0] else rest
  }

  ghost predicate IsSorted(s: seq<real>) {
    forall i, j :: 0 <= i <= j < |s| ==> s[i] <= s[j]
  }

  /** Inserts `x` before the first element not below it. */
  function Insert(x: real, s: seq<real>): (r: seq<real>)
    ensures |r| == |s| + 1
  {
    if s == [] then [x]
    else if x <= s[0] then [x] + s
    else [s[0]] + Insert(x, s[1..])
  }

  /** Inserting into a sorted sequence keeps it sorted. */
  lemma {:induction false} InsertSorted(x: real, s: seq<real>)
    requires IsSorted(s)
    ensures IsSorted(Insert(x, s))
  {
    if s == [] {
    } else if x <= s[0] {
      SortedCons(x, s);
    } else {
      SortedTail(s);
      InsertSorted(x, s[1..]);
      var tail := Insert(x, s[1..]);
      assert tail[0] == x || tail[0] == s[1];
      SortedCons(s[0], tail);
    }
  }

  /** Inserting adds `x` and loses nothing. */
  lemma {:induction false} InsertPermutes(x: real, s: seq<real>)
    ensures multiset(Insert(x, s)) == multiset(s) + multiset{x}
  {
    if s != [] && s[0] < x {
      InsertPermutes(x, s[1..]);
      assert s == [s[0]] + s[1..];
    }
  }

  /** Dropping the head of a sorted sequence leaves it sorted. */
  lemma SortedTail(s: seq<real>)
    requires IsSorted(s) && s != []
    ensures IsSorted(s[1..])
  {
    forall i, j | 0 <= i <= j < |s| - 1
      ensures s[1..][i] <= s[1..][j]
    {
      assert s[1..][i] == s[i + 1] && s[1..][j] == s[j + 1];
    }
  }

  /** A head no larger than the first element of a sorted tail keeps it sorted. */
  lemma SortedCons(head: real, tail: seq<real>)
    requires IsSorted(tail) && tail != [] && head <= tail[0]
    ensures IsSorted([head] + tail)
  {
    var r := [head] + tail;
    forall i, j | 0 <= i <= j < |r|
      ensures r[i] <= r[j]
    {
      if 0 < i {
        assert r[i] == tail[i - 1] && r[j] == tail[j - 1];
      } else if 0 < j {
        assert r[j] == tail[j - 1];
      }
    }
  }

  /** `sorted(s)`: an ascending permutation of `s`. */
  function SortAscending(s: seq<real>): (r: seq<real>)
    ensures IsSorted(r)
    ensures multiset(r) == multiset(s)
    ensures |r| == |s|
  {
    if s == [] then []
    else
      var rest := SortAscending(s[1..]);
      InsertSorted(s[0], rest);
      InsertPermutes(s[0], rest);
      assert s == [s[0]] + s[1..];
      Insert(s[0], rest)
  }

  /** The ends of the sorted list are `min` and `max` of the unsorted one. */
  lemma SortedEnds(s: seq<real>)
    requires |s| > 0
    ensures SortAscending(s)[0] == SeqMin(s)
    ensures SortAscending(s)[|s| - 1] == SeqMax(s)
  {
    var t := SortAscending(s);
    SameElements(t, s);
    SortedFirstIsMin(t, s);
    SortedLastIsMax(t, s);
  }

  /** Two sequences with the same multiset hold the same elements. */
  lemma SameElements(t: seq<real>, s: seq<real>)
    requires multiset(t) == multiset(s)
    ensures forall x :: x in t <==> x in s
  {
    forall x
      ensures x in t <==> x in s
    {
      assert x in t <==> x in multiset(t);
      assert x in s <==> x in multiset(s);
    }
  }

  lemma SortedFirstIsMin(t: seq<real>, s: seq<real>)
    requires |s| > 0 && |t| > 0 && IsSorted(t)
    requires forall x :: x in t <==> x in s
    ensures t[0] == SeqMin(s)
  {
    assert t[0] in t;
    var i :| 0 <= i < |t| && t[i] == SeqMin(s);
    assert t[0] <= t[i];
  }

  lemma SortedLastIsMax(t: seq<real>, s: seq<real>)
    requires |s| > 0 && |t| > 0 && IsSorted(t)
    requires forall x :: x in t <==> x in s
    ensures t[|t| - 1] == SeqMax(s)
  {
    assert t[|t| - 1] in t;
    var j :| 0 <= j < |t| && t[j] == SeqMax(s);
    assert t[j] <= t[|t| - 1];
  }

  /** A sum of `len` values, none below `c`, is at least `len * c`. */
  lemma {:induction false} SumAtLeast(s: seq<real>, c: real)
    requires forall k :: 0 <= k < |s| ==> c <= s[k]
    ensures (|s| as real) * c <= Sum(s)
  {
    if s != [] {
      SumAtLeast(s[1..], c);
      Distribute(|s[1..]| as real, c);
    }
  }

  /** A sum of `len` values, none above `c`, is at most `len * c`. */
  lemma {:induction false} SumAtMost(s: seq<real>, c: real)
    requires forall k :: 0 <= k < |s| ==> s[k] <= c
    ensures Sum(s) <= (|s| as real) * c
  {
    if s != [] {
      SumAtMost(s[1..], c);
      Distribute(|s[1..]| as real, c);
    }
  }

  lemma Distribute(n: real, c: real)
    ensures (n + 1.0) * c == n * c + c
  {
  }

  /** Raising one count by one raises the total by one. */
  lemma {:induction false} SumNatIncrement(s: seq<nat>, b: nat)
    requires b < |s|
    ensures SumNat(s[b := s[b] + 1]) == SumNat(s) + 1
  {
    if b > 0 {
      SumNatIncrement(s[1..], b - 1);
      assert s[b := s[b] + 1][1..] == s[1..][b - 1 := s[b] + 1];
    }
  }

  lemma {:induction false} SumNatZeros(n: nat)
    ensures SumNat(seq(n, _ => 0)) == 0
  {
    if n > 0 {
      SumNatZeros(n - 1);
      assert seq(n, _ => 0)[1..] == seq(n - 1, _ => 0);
    }
  }
}
