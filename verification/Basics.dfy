/** Sequence and counting facts shared by the models. */
module Basics {
  datatype Option<+T> = None | Some(value: T)

  ghost predicate NoDup<T>(s: seq<T>) {
    forall i, j :: 0 <= i < j < |s| ==> s[i] != s[j]
  }

  function Iota(n: nat): (s: seq<nat>)
    ensures |s| == n && forall i :: 0 <= i < n ==> s[i] == i
  {
    seq(n, i => i)
  }

  lemma IotaMember(n: nat, c: nat)
    ensures c in Iota(n) <==> c < n
  {
    if c < n { assert Iota(n)[c] == c; }
  }

  function IndexOf<T(==)>(s: seq<T>, x: T): (i: nat)
    requires x in s
    ensures i < |s| && s[i] == x && x !in s[..i]
  {
    if s[0] == x then 0 else 1 + IndexOf(s[1..], x)
  }

  lemma IndexOfUnique<T>(s: seq<T>, x: T, i: nat)
    requires NoDup(s) && i < |s| && s[i] == x
    ensures x in s && IndexOf(s, x) == i
  {
    assert s[IndexOf(s, x)] == s[i];
  }

  /** A duplicate-free sequence of n naturals below n contains every one of them. */
  lemma {:induction false} Pigeonhole(s: seq<nat>, n: nat, x: nat)
    requires NoDup(s) && |s| == n && x < n
    requires forall i :: 0 <= i < n ==> s[i] < n
    ensures x in s
  {
    var here := set y | y in s;
    SetOfSeq(s);
    if x !in s {
      assert x in Below(n) && x !in here;
      SubsetSmaller(here, Below(n));
    }
  }

  lemma {:induction false} SetOfSeq<T>(s: seq<T>)
    requires NoDup(s)
    ensures |set y | y in s| == |s|
  {
    if s != [] {
      var rest := s[..|s| - 1];
      var last := s[|s| - 1];
      SetOfSeq(rest);
      assert (set y | y in s) == (set y | y in rest) + {last};
      assert last !in rest;
    }
  }

  function Below(n: nat): (b: set<nat>)
    ensures |b| == n && forall x: nat :: x in b <==> x < n
  {
    if n == 0 then {} else Below(n - 1) + {n - 1}
  }

  lemma SubsetSmaller<T>(a: set<T>, b: set<T>)
    requires a < b
    ensures |a| < |b|
  {
    assert b == a + (b - a);
    assert |b| == |a| + |b - a|;
    var x :| x in b - a;
  }

  function SumOf(s: seq<nat>): nat {
    if s == [] then 0 else SumOf(s[..|s| - 1]) + s[|s| - 1]
  }

  /** With the sum of a single number this is all there is to a sum. */
  lemma {:induction false} SumSplits(a: seq<nat>, b: seq<nat>)
    ensures SumOf(a + b) == SumOf(a) + SumOf(b)
    ensures |a| == 1 ==> SumOf(a) == a[0]
  {
    if |a| == 1 { assert a[..0] == [] && SumOf(a[..0]) == 0; }
    if b == [] {
      assert a + b == a;
    } else {
      SumSplits(a, b[..|b| - 1]);
      assert (a + b)[..|a + b| - 1] == a + b[..|b| - 1];
    }
  }

  function Max(a: int, b: int): int { if a < b then b else a }

  function Min(a: int, b: int): int { if b < a then b else a }

  /** The sequence with element i taken out. */
  function Without<T>(s: seq<T>, i: nat): seq<T>
    requires i < |s|
  {
    s[..i] + s[i + 1..]
  }
}
