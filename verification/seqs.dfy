/** Sequence helpers shared by the server and the client models: duplicate-free
    sequences, first-occurrence de-duplication (what `[...new Set(s)]` yields)
    and left-to-right sums (what `reduce((sum, x) => sum + f(x), 0)` yields). */
module Seqs {

  /** No element occurs twice. */
  predicate NoDup<T(==)>(s: seq<T>) {
    forall i, j :: 0 <= i < j < |s| ==> s[i] != s[j]
  }

  /** Index of the first occurrence of `x` in `s`. */
  function FirstIndex<T(==)>(s: seq<T>, x: T): (i: nat)
    requires x in s
    ensures i < |s| && s[i] == x && x !in s[..i]
  {
    if s[0] == x then 0
    else
      var j := FirstIndex(s[1..], x);
      assert s[..j + 1] == [s[0]] + s[1..][..j];
      j + 1
  }

  /** The elements of `s`, each once, in the order of their first occurrence.
      Defined as the left fold a JavaScript `Set` performs on insertion. */
  function Distinct<T(==)>(s: seq<T>): (r: seq<T>)
    ensures NoDup(r)
    ensures forall i :: 0 <= i < |r| ==> r[i] in s
    ensures forall i :: 0 <= i < |s| ==> s[i] in r
    ensures |r| <= |s|
    decreases |s|
  {
    if |s| == 0 then []
    else
      var n := |s| - 1;
      var d := Distinct(s[..n]);
      assert s == s[..n] + [s[n]];
      if s[n] in d then d else d + [s[n]]
  }

  /** An element survives de-duplication iff it occurs. */
  lemma DistinctHas<T>(s: seq<T>, x: T)
    ensures x in Distinct(s) <==> x in s
  {
    if x in s {
      var i :| 0 <= i < |s| && s[i] == x;
    }
    if x in Distinct(s) {
      var i :| 0 <= i < |Distinct(s)| && Distinct(s)[i] == x;
    }
  }

  /** Proof step: appending does not move an element's first occurrence. */
  lemma FirstIndexOfPrefix<T>(p: seq<T>, q: seq<T>, y: T)
    requires y in p
    ensures FirstIndex(p + q, y) == FirstIndex(p, y)
  {
    var i := FirstIndex(p + q, y);
    var k := FirstIndex(p, y);
    assert (p + q)[..k] == p[..k];
    assert (p + q)[k] == y;
  }

  /** Distinct really orders its elements by first occurrence: an element that
      comes earlier in the result first occurs earlier in the input. With
      `NoDup` and the membership clause this pins the result down completely. */
  lemma {:induction false} DistinctFirstOccurrence<T>(s: seq<T>)
    ensures forall i, j :: 0 <= i < j < |Distinct(s)| ==>
      FirstIndex(s, Distinct(s)[i]) < FirstIndex(s, Distinct(s)[j])
    decreases |s|
  {
    if |s| > 0 {
      var n := |s| - 1;
      var p := s[..n];
      var d := Distinct(p);
      DistinctFirstOccurrence(p);
      assert s == p + [s[n]];
      forall y | y in p
        ensures FirstIndex(s, y) == FirstIndex(p, y) && FirstIndex(s, y) < n
      {
        FirstIndexOfPrefix(p, [s[n]], y);
      }
      var r := Distinct(s);
      if s[n] !in d {
        assert s[n] !in p;
        assert s[..n] == p;
        assert FirstIndex(s, s[n]) == n;
        assert r == d + [s[n]];
        forall i, j | 0 <= i < j < |r|
          ensures FirstIndex(s, r[i]) < FirstIndex(s, r[j])
        {
          assert r[i] == d[i];
          if j < |d| {
            assert r[j] == d[j];
          }
        }
      }
    }
  }

  /** A duplicate-free sequence is its own de-duplication. */
  lemma {:induction false} DistinctOfNoDup<T>(s: seq<T>)
    requires NoDup(s)
    ensures Distinct(s) == s
    decreases |s|
  {
    if |s| > 0 {
      var n := |s| - 1;
      DistinctOfNoDup(s[..n]);
      assert s[n] !in s[..n];
      assert s == s[..n] + [s[n]];
    }
  }

  /** De-duplicating `p + q` keeps the de-duplication of `p` as a prefix. */
  lemma {:induction false} DistinctExtends<T>(p: seq<T>, q: seq<T>)
    ensures |Distinct(p)| <= |Distinct(p + q)|
    ensures Distinct(p + q)[..|Distinct(p)|] == Distinct(p)
    decreases |q|
  {
    if |q| == 0 {
      assert p + q == p;
    } else {
      var n := |q| - 1;
      DistinctExtends(p, q[..n]);
      assert (p + q)[..|p + q| - 1] == p + q[..n];
    }
  }

  /** Proof step: the multiset of a sequence split at its last element. */
  lemma MultisetLast<T>(s: seq<T>)
    requires |s| > 0
    ensures multiset(s) == multiset(s[..|s| - 1]) + multiset{s[|s| - 1]}
  {
    assert s == s[..|s| - 1] + [s[|s| - 1]];
  }

  /** Sum of `f` over `s`, accumulated left to right. */
  function SumOf<T>(s: seq<T>, f: T -> int): int
    decreases |s|
  {
    if |s| == 0 then 0 else SumOf(s[..|s| - 1], f) + f(s[|s| - 1])
  }

  lemma {:induction false} SumOfConcat<T>(a: seq<T>, b: seq<T>, f: T -> int)
    ensures SumOf(a + b, f) == SumOf(a, f) + SumOf(b, f)
    decreases |b|
  {
    if |b| == 0 {
      assert a + b == a;
    } else {
      var n := |b| - 1;
      assert (a + b)[..|a + b| - 1] == a + b[..n];
      SumOfConcat(a, b[..n], f);
    }
  }

  /** A sum does not depend on the order of its terms. */
  lemma {:induction false} SumOfPermutation<T>(a: seq<T>, b: seq<T>, f: T -> int)
    requires multiset(a) == multiset(b)
    ensures SumOf(a, f) == SumOf(b, f)
    decreases |a|
  {
    if |a| == 0 {
      assert |b| == |multiset(b)| == 0;
    } else {
      var n := |a| - 1;
      var x := a[n];
      assert a == a[..n] + [x];
      assert x in multiset(b);
      var i :| 0 <= i < |b| && b[i] == x;
      var rest := b[..i] + b[i + 1..];
      assert b == b[..i] + [x] + b[i + 1..];
      assert multiset(b) == multiset(b[..i]) + multiset{x} + multiset(b[i + 1..]);
      assert multiset(rest) == multiset(b[..i]) + multiset(b[i + 1..]);
      assert multiset(a) == multiset(a[..n]) + multiset{x};
      assert multiset(a[..n]) == multiset(a) - multiset{x};
      assert multiset(rest) == multiset(b) - multiset{x};
      SumOfPermutation(a[..n], rest, f);
      SumOfConcat(b[..i] + [x], b[i + 1..], f);
      SumOfConcat(b[..i], [x], f);
      SumOfConcat(b[..i], b[i + 1..], f);
      assert SumOf([x], f) == f(x) by {
        assert [x][..0] == [];
      }
    }
  }

  predicate StrictlyIncreasing(s: seq<int>) {
    forall i, j :: 0 <= i < j < |s| ==> s[i] < s[j]
  }

  predicate Nondecreasing(s: seq<int>) {
    forall i, j :: 0 <= i < j < |s| ==> s[i] <= s[j]
  }

  /** De-duplicating a non-decreasing sequence gives a strictly increasing one. */
  lemma {:induction false} DistinctOfNondecreasing(s: seq<int>)
    requires Nondecreasing(s)
    ensures StrictlyIncreasing(Distinct(s))
    decreases |s|
  {
    if |s| > 0 {
      var n := |s| - 1;
      var p := s[..n];
      NondecreasingPrefix(s);
      DistinctOfNondecreasing(p);
      var d := Distinct(p);
      assert Distinct(s) == if s[n] in d then d else d + [s[n]];
      if s[n] !in d {
        BelowLast(s, d);
        AppendAbove(d, s[n]);
      }
    }
  }

  /** Proof step: dropping the last element keeps a sequence non-decreasing. */
  lemma NondecreasingPrefix(s: seq<int>)
    requires |s| > 0 && Nondecreasing(s)
    ensures Nondecreasing(s[..|s| - 1])
  {
    var p := s[..|s| - 1];
    forall i, j | 0 <= i < j < |p| ensures p[i] <= p[j] {
      assert p[i] == s[i] && p[j] == s[j];
    }
  }

  /** Proof step: appending a value above every element keeps a sequence
      strictly increasing. */
  lemma AppendAbove(d: seq<int>, x: int)
    requires StrictlyIncreasing(d)
    requires forall i :: 0 <= i < |d| ==> d[i] < x
    ensures StrictlyIncreasing(d + [x])
  {
    var r := d + [x];
    forall i, j | 0 <= i < j < |r| ensures r[i] < r[j] {
      assert r[i] == d[i];
      if j < |d| {
        assert r[j] == d[j];
      }
    }
  }

  /** Proof step of `DistinctOfNondecreasing`: in a non-decreasing sequence,
      every earlier value other than the last is below it. */
  lemma BelowLast(s: seq<int>, d: seq<int>)
    requires |s| > 0
    requires Nondecreasing(s)
    requires forall i :: 0 <= i < |d| ==> d[i] in s[..|s| - 1]
    requires s[|s| - 1] !in d
    ensures forall i :: 0 <= i < |d| ==> d[i] < s[|s| - 1]
  {
    var n := |s| - 1;
    forall i | 0 <= i < |d| ensures d[i] < s[n] {
      assert d[i] in s[..n];
      var j :| 0 <= j < n && s[..n][j] == d[i];
      assert s[j] <= s[n];
      assert d[i] != s[n];
    }
  }

  /** A strictly increasing sequence is determined by its elements. */
  lemma {:induction false} IncreasingUnique(a: seq<int>, b: seq<int>)
    requires StrictlyIncreasing(a) && StrictlyIncreasing(b)
    requires forall x :: x in a <==> x in b
    ensures a == b
    decreases |a| + |b|
  {
    if |a| > 0 {
      assert a[0] in a;
    }
    if |b| > 0 {
      assert b[0] in b;
    }
    if |a| > 0 && |b| > 0 {
      assert a[0] in a && a[0] in b;
      assert b[0] in b && b[0] in a;
      assert a[0] == b[0];
      forall x ensures x in a[1..] <==> x in b[1..] {
        assert x in a[1..] <==> x in a && x != a[0];
        assert x in b[1..] <==> x in b && x != b[0];
      }
      IncreasingUnique(a[1..], b[1..]);
      assert a == [a[0]] + a[1..];
      assert b == [b[0]] + b[1..];
    }
  }
}
