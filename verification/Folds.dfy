/** Reductions: a commutative, associative operator gives one result for every order of arrival. */
module Folds {
  import opened Basics
  import opened Words

  ghost predicate Commutes<V>(op: (V, V) -> V, a: V, b: V) { op(a, b) == op(b, a) }

  ghost predicate Associates<V>(op: (V, V) -> V, a: V, b: V, c: V) { op(op(a, b), c) == op(a, op(b, c)) }

  /** What MPI_Op_create demands of an operator: it must commute; reductions assume it associates. */
  ghost predicate Reducible<V(!new)>(op: (V, V) -> V) {
    && (forall a, b :: Commutes(op, a, b))
    && (forall a, b, c :: Associates(op, a, b, c))
  }

  /** x[0] op x[1] op ... op x[n-1], in rank order. */
  function RankFold<V>(op: (V, V) -> V, x: seq<V>, n: nat): V
    requires 0 < n <= |x|
  {
    if n == 1 then x[0] else op(RankFold(op, x, n - 1), x[n - 1])
  }

  /** The same contributions combined one by one in order of arrival, newest operand first. */
  function ChainFold<V>(op: (V, V) -> V, x: seq<V>, order: seq<nat>): V
    requires order != [] && forall i :: 0 <= i < |order| ==> order[i] < |x|
  {
    var m := |order| - 1;
    if m == 0 then x[order[0]] else op(x[order[m]], ChainFold(op, x, order[..m]))
  }

  /** Any contribution can be taken out of a chain and combined last. */
  lemma {:induction false} ChainPull<V(!new)>(op: (V, V) -> V, x: seq<V>, order: seq<nat>, i: nat)
    requires Reducible(op) && |order| >= 2 && i < |order|
    requires forall j :: 0 <= j < |order| ==> order[j] < |x|
    ensures ChainFold(op, x, order) == op(x[order[i]], ChainFold(op, x, order[..i] + order[i + 1..]))
  {
    var m := |order| - 1;
    var without := order[..i] + order[i + 1..];
    if i == m {
      assert without == order[..m];
    } else if m == 1 {
      assert without == [order[1]];
      assert Commutes(op, x[order[0]], x[order[1]]);
    } else {
      var init := order[..m];
      ChainPull(op, x, init, i);
      assert without[..m - 1] == init[..i] + init[i + 1..];
      var rest := ChainFold(op, x, init[..i] + init[i + 1..]);
      assert Associates(op, x[order[m]], x[order[i]], rest);
      assert Commutes(op, x[order[i]], x[order[m]]);
      assert Associates(op, x[order[i]], x[order[m]], rest);
    }
  }

  /** The arrivals without rank n - 1 are arrivals of the ranks below it. */
  lemma WithoutLast(order: seq<nat>, n: nat, i: nat)
    requires |order| == n > 0 && NoDup(order) && i < n && order[i] == n - 1
    requires forall j :: 0 <= j < n ==> order[j] < n
    ensures var rest := order[..i] + order[i + 1..];
      |rest| == n - 1 && NoDup(rest) && forall j :: 0 <= j < n - 1 ==> rest[j] < n - 1
  {
    var rest := order[..i] + order[i + 1..];
    forall j | 0 <= j < n - 1 ensures rest[j] < n - 1 {
      var at := if j < i then j else j + 1;
      assert rest[j] == order[at] != order[i];
    }
  }

  /** For every arrival order of the ranks 0..n-1 the chain is the fold in rank order. */
  lemma {:induction false} ChainIsRankFold<V(!new)>(op: (V, V) -> V, x: seq<V>, order: seq<nat>, n: nat)
    requires Reducible(op) && 0 < n <= |x| && |order| == n && NoDup(order)
    requires forall i :: 0 <= i < n ==> order[i] < n
    ensures ChainFold(op, x, order) == RankFold(op, x, n)
  {
    if n > 1 {
      Pigeonhole(order, n, n - 1);
      var i := IndexOf(order, n - 1);
      WithoutLast(order, n, i);
      ChainPull(op, x, order, i);
      ChainIsRankFold(op, x, order[..i] + order[i + 1..], n - 1);
      assert Commutes(op, x[n - 1], RankFold(op, x, n - 1));
    }
  }

  // ---------- vectors ----------

  /** Elementwise combination of two vectors. */
  function Zip<T>(op: (T, T) -> T, a: seq<T>, b: seq<T>): (r: seq<T>)
    ensures |r| == if |a| <= |b| then |a| else |b|
    ensures forall i :: 0 <= i < |r| ==> r[i] == op(a[i], b[i])
  {
    seq(if |a| <= |b| then |a| else |b|, i requires 0 <= i < |a| && i < |b| => op(a[i], b[i]))
  }

  function Vectorized<T>(op: (T, T) -> T): (seq<T>, seq<T>) -> seq<T> {
    (a, b) => Zip(op, a, b)
  }

  lemma VectorizedReducible<T(!new)>(op: (T, T) -> T)
    requires Reducible(op)
    ensures Reducible(Vectorized(op))
  {
    var v := Vectorized(op);
    forall a, b ensures Commutes(v, a, b) {
      forall i | 0 <= i < |a| && i < |b| ensures Zip(op, a, b)[i] == Zip(op, b, a)[i] {
        assert Commutes(op, a[i], b[i]);
      }
      assert Zip(op, a, b) == Zip(op, b, a);
    }
    forall a, b, c ensures Associates(v, a, b, c) {
      var left, right := Zip(op, Zip(op, a, b), c), Zip(op, a, Zip(op, b, c));
      forall i | 0 <= i < |left| ensures left[i] == right[i] { assert Associates(op, a[i], b[i], c[i]); }
      assert left == right;
    }
  }

  /** Reducing vectors reduces every element on its own. */
  lemma {:induction false} ElementwiseFold<T>(op: (T, T) -> T, x: seq<seq<T>>, n: nat, count: nat, i: nat)
    requires 0 < n <= |x| && i < count && forall r :: 0 <= r < |x| ==> |x[r]| == count
    ensures |RankFold(Vectorized(op), x, n)| == count
    ensures RankFold(Vectorized(op), x, n)[i] == RankFold(op, seq(|x|, r requires 0 <= r < |x| => x[r][i]), n)
  {
    if n > 1 { ElementwiseFold(op, x, n - 1, count, i); }
  }

  /** The loop behind every predefined operator: inoutvec[i] becomes invec[i] op inoutvec[i]. */
  method Apply<T>(op: (T, T) -> T, invec: array<T>, inoutvec: array<T>, len: nat)
    requires len <= invec.Length && len <= inoutvec.Length && invec != inoutvec
    modifies inoutvec
    ensures inoutvec[..len] == Vectorized(op)(invec[..len], old(inoutvec[..len]))
    ensures inoutvec[len..] == old(inoutvec[len..])
  {
    var i := 0;
    while i < len
      invariant 0 <= i <= len
      invariant forall j :: 0 <= j < i ==> inoutvec[j] == op(invec[j], old(inoutvec[j]))
      invariant forall j :: i <= j < inoutvec.Length ==> inoutvec[j] == old(inoutvec[j])
    {
      inoutvec[i] := op(invec[i], inoutvec[i]);
      i := i + 1;
    }
  }

  /** Unsigned 64-bit addition and multiplication, which wrap around. */
  function WrappingSum(a: int, b: int): int { Word(a + b) }

  function WrappingProduct(a: int, b: int): int { Word(a * b) }

  lemma WrapsAway(x: int, k: int)
    ensures Word(x + k * WORD) == Word(x)
  {
  }

  lemma ProductWraps(x: int, c: int)
    ensures Word(Word(x) * c) == Word(x * c)
  {
    var q := x / WORD;
    assert x == Word(x) + q * WORD;
    assert x * c == Word(x) * c + (q * c) * WORD by { assert (q * WORD) * c == (q * c) * WORD; }
    WrapsAway(Word(x) * c, q * c);
  }

  lemma ProductAssociates(a: int, b: int, c: int)
    ensures Associates(WrappingProduct, a, b, c)
  {
    ProductWraps(a * b, c);
    ProductWraps(b * c, a);
    Reordered(a, b, c);
  }

  lemma Reordered(a: int, b: int, c: int)
    ensures (a * b) * c == (b * c) * a && a * Word(b * c) == Word(b * c) * a
  {
  }

  /** Sums and products stay commutative and associative when they wrap. */
  lemma {:induction false} WrappingReducible()
    ensures Reducible(WrappingSum) && Reducible(WrappingProduct)
  {
    forall a: int, b: int, c: int ensures Associates(WrappingSum, a, b, c) {
      WordSum(a + b, c);
      WordSum(b + c, a);
    }
    forall a: int, b: int ensures Commutes(WrappingProduct, a, b) {}
    forall a: int, b: int, c: int ensures Associates(WrappingProduct, a, b, c) { ProductAssociates(a, b, c); }
  }

  /** Folding with the wrapping sum gives the sum of the ranks' numbers modulo 2^64. */
  lemma {:induction false} FoldIsSum(x: seq<nat>, n: nat)
    requires 0 < n <= |x| && forall i :: 0 <= i < |x| ==> x[i] < WORD
    ensures RankFold(WrappingSum, x, n) == SumOf(x[..n]) % 0x1_0000_0000_0000_0000
  {
    assert x[..n][..n - 1] == x[..n - 1];
    if n > 1 {
      FoldIsSum(x, n - 1);
      WordSum(SumOf(x[..n - 1]), x[n - 1]);
    } else {
      InRange(x[0]);
    }
  }

  function ProductOf(s: seq<nat>): nat {
    if s == [] then 1 else ProductOf(s[..|s| - 1]) * s[|s| - 1]
  }

  /** With the wrapping product it gives their product modulo 2^64. */
  lemma {:induction false} FoldIsProductOf(x: seq<nat>, n: nat)
    requires 0 < n <= |x| && forall i :: 0 <= i < |x| ==> x[i] < WORD
    ensures RankFold(WrappingProduct, x, n) == ProductOf(x[..n]) % 0x1_0000_0000_0000_0000
  {
    assert x[..n][..n - 1] == x[..n - 1];
    if n > 1 {
      FoldIsProductOf(x, n - 1);
      ProductWraps(ProductOf(x[..n - 1]), x[n - 1]);
    } else {
      InRange(x[0]);
    }
  }

  /** Folding with the maximum gives the largest of the ranks' numbers, with the minimum the smallest. */
  lemma {:induction false} FoldIsExtreme(x: seq<int>, n: nat)
    requires 0 < n <= |x|
    ensures RankFold(Max, x, n) in x[..n] && forall i :: 0 <= i < n ==> x[i] <= RankFold(Max, x, n)
    ensures RankFold(Min, x, n) in x[..n] && forall i :: 0 <= i < n ==> x[i] >= RankFold(Min, x, n)
  {
    assert x[..n][n - 1] == x[n - 1];
    if n > 1 {
      FoldIsExtreme(x, n - 1);
      assert x[..n] == x[..n - 1] + [x[n - 1]];
    }
  }

  lemma {:induction false} PredefinedReducible()
    ensures Reducible(Max) && Reducible(Min)
    ensures Reducible((a: int, b: int) => a + b) && Reducible((a: int, b: int) => a * b)
  {
    var times := (a: int, b: int) => a * b;
    forall a: int, b: int, c: int ensures Associates(times, a, b, c) {}
  }
}
