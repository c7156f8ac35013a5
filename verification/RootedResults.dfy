/** What bcast, scatter, gatherv and gather leave in the buffers, in the operations' own arguments. */
module RootedResults {
  import opened Basics
  import opened Ledger
  import opened LedgerRuns
  import opened LedgerTheorems
  import opened LedgerProgress
  import opened RootedCollectives
  import opened RootedCalls
  import opened RootUntouched
  import GatherPlacement

  /** Position k's wait has returned in this run, and the rank there is r. */
  ghost predicate Returned(sp: Spec, events: seq<Event>, k: nat, r: nat) {
    && Sized(sp) && AfterCalls(sp, events).Some? && k < |AfterCalls(sp, events).value.ledger.order|
    && AfterCalls(sp, events).value.ledger.order[k] == r && Completed(AfterCalls(sp, events).value.ledger, k)
  }

  /** When rank r's bcast returns, its first `count` elements are the root's, and the others are as they were. */
  lemma {:induction false} BcastResult<V>(n: nat, root: nat, count: nat, events: seq<Event>, init: seq<seq<V>>,
          k: nat, r: nat)
    requires |init| == n >= 2 && root < n && forall q :: 0 <= q < n ==> count <= |init[q]|
    requires r < n && r != root && Returned(Bcast(n, root, count), events, k, r)
    ensures CallBuffers(Bcast(n, root, count), events, init)[r] == init[root][..count] + init[r][count..]
  {
    var sp := Bcast(n, root, count);
    BcastFits(n, root, count, init);
    LedgerRun(sp, events);
    LeafReceives(sp, Acts(events), init, k);
    BcastValues(n, root, count, init, Buffers(sp, Acts(events), init), r);
  }

  lemma {:induction false} BcastValues<V>(n: nat, root: nat, count: nat, init: seq<seq<V>>, mem: seq<seq<V>>, r: nat)
    requires Fits(Bcast(n, root, count), init) && r < n && GotSegment(Bcast(n, root, count), init, mem, r)
    requires |init| == n && root < n && count <= |init[root]|
    ensures r < |mem| && count <= |init[r]| && mem[r] == init[root][..count] + init[r][count..]
  {
    assert mem[r] == mem[r][..count] + mem[r][count..];
    assert init[root][0..0 + count] == init[root][..count];
  }

  /** When rank r's scatter returns, it holds block r of the root's data, and its other elements are as they were. */
  lemma {:induction false} ScatterResult<V>(n: nat, root: nat, count: nat, events: seq<Event>, init: seq<seq<V>>,
          k: nat, r: nat)
    requires |init| == n >= 2 && root < n && count * n <= |init[root]|
    requires forall q :: 0 <= q < n && q != root ==> count <= |init[q]|
    requires r < n && r != root && Returned(Scatter(n, root, count), events, k, r)
    ensures 0 <= count * r && count * r + count <= |init[root]|
    ensures CallBuffers(Scatter(n, root, count), events, init)[r]
         == init[root][count * r..count * r + count] + init[r][count..]
  {
    var sp := Scatter(n, root, count);
    ScatterFits(n, root, count, init);
    LedgerRun(sp, events);
    LeafReceives(sp, Acts(events), init, k);
    ScatterValues(n, root, count, init, Buffers(sp, Acts(events), init), r);
  }

  lemma {:induction false} ScatterValues<V>(n: nat, root: nat, count: nat, init: seq<seq<V>>, mem: seq<seq<V>>, r: nat)
    requires Fits(Scatter(n, root, count), init) && r < n && GotSegment(Scatter(n, root, count), init, mem, r)
    requires count * n <= |init[root]|
    ensures r < |mem| && 0 <= count * r && count * r + count <= |init[root]| && count <= |init[r]|
    ensures mem[r] == init[root][count * r..count * r + count] + init[r][count..]
  {
    MultipleBelow(count, r, n);
    assert mem[r] == mem[r][..count] + mem[r][count..];
  }

  /** Element i of the root's buffer belongs to no leaf's segment. */
  predicate Between(root: nat, counts: seq<nat>, displs: seq<nat>, i: nat)
    requires |counts| == |displs|
  {
    forall r :: 0 <= r < |counts| && r != root ==> !(displs[r] <= i < displs[r] + counts[r])
  }

  /**
    When the root's gatherv returns from its wait, rank r's contribution starts at displs[r], and elements in
    no leaf's segment are as they were, if the segments do not overlap and the filled ones end within the sum.
   */
  lemma {:induction false} GathervResult<V>(n: nat, root: nat, counts: seq<nat>, displs: seq<nat>,
          events: seq<Event>, init: seq<seq<V>>, k: nat)
    requires |init| == |counts| == |displs| == n >= 2 && root < n && Disjoint(Gatherv(n, root, counts, displs))
    requires forall q :: 0 <= q < n && q != root ==> counts[q] <= |init[q]| && displs[q] + counts[q] <= |init[root]|
    requires forall q :: 0 <= q < n && q != root ==> counts[q] == 0 || displs[q] + counts[q] <= SumOf(counts)
    requires Returned(Gatherv(n, root, counts, displs), events, k, root)
    ensures var buf := CallBuffers(Gatherv(n, root, counts, displs), events, init)[root];
      && |buf| == |init[root]|
      && (forall r :: 0 <= r < n && r != root ==> buf[displs[r]..displs[r] + counts[r]] == init[r][..counts[r]])
      && (forall i :: 0 <= i < |buf| && Between(root, counts, displs, i) ==> buf[i] == init[root][i])
  {
    var sp := Gatherv(n, root, counts, displs);
    LedgerRun(sp, events);
    GathervFits(n, root, counts, displs, init);
    RootCollects(sp, Acts(events), init, k);
    GathervValues(n, root, counts, displs, init, CallBuffers(sp, events, init)[root]);
  }

  lemma {:induction false} GathervValues<V>(n: nat, root: nat, counts: seq<nat>, displs: seq<nat>,
          init: seq<seq<V>>, buf: seq<V>)
    requires |counts| == |displs| == n && root < n && Fits(Gatherv(n, root, counts, displs), init)
    requires |buf| == |init[root]| && OutsideKept(Gatherv(n, root, counts, displs), init, buf)
    requires forall r :: 0 <= r < n && r != root ==> Collected(Gatherv(n, root, counts, displs), init, buf, r)
    ensures forall r :: 0 <= r < n && r != root ==>
      counts[r] <= |init[r]| && displs[r] + counts[r] <= |buf|
      && buf[displs[r]..displs[r] + counts[r]] == init[r][..counts[r]]
    ensures forall i :: 0 <= i < |buf| && Between(root, counts, displs, i) ==> buf[i] == init[root][i]
  {
    forall r | 0 <= r < n && r != root
      ensures counts[r] <= |init[r]| && displs[r] + counts[r] <= |buf|
        && buf[displs[r]..displs[r] + counts[r]] == init[r][..counts[r]]
    {
      assert Collected(Gatherv(n, root, counts, displs), init, buf, r);
    }
  }

  /** When the root's gather of one element per rank (or from rank 0 alone) returns, rank r's block is at count * r. */
  lemma {:induction false} GatherResult<V>(n: nat, root: nat, count: nat, events: seq<Event>, init: seq<seq<V>>,
          k: nat, r: nat)
    requires |init| == n >= 2 && root < n && |init[root]| == count * n && (count <= 1 || (n == 2 && root == 1))
    requires forall q :: 0 <= q < n && q != root ==> |init[q]| == count
    requires r < n && r != root && Returned(Gather(n, root, count), events, k, root)
    ensures 0 <= count * r && count * r + count <= |CallBuffers(Gather(n, root, count), events, init)[root]|
    ensures CallBuffers(Gather(n, root, count), events, init)[root][count * r..count * r + count] == init[r]
  {
    var sp := Gather(n, root, count);
    LedgerRun(sp, events);
    GatherPlacement.GatherFits(n, root, count, init);
    RootCollects(sp, Acts(events), init, k);
    GatherValues(n, root, count, init, CallBuffers(sp, events, init)[root], r);
  }

  lemma {:induction false} GatherValues<V>(n: nat, root: nat, count: nat, init: seq<seq<V>>, buf: seq<V>, r: nat)
    requires Fits(Gather(n, root, count), init) && r < n && r != root && root < n
    requires |buf| == |init[root]| == count * n && |init[r]| == count
    requires Collected(Gather(n, root, count), init, buf, r)
    ensures 0 <= count * r && count * r + count <= |buf| && buf[count * r..count * r + count] == init[r]
  {
    MultipleBelow(count, r, n);
    assert init[r][..count] == init[r];
  }

  // ---------- which transfers are refused ----------

  /** The leaf whose transfer position k is about to make: itself, or the one the root serves. */
  function Leaf(root: nat, s: State, k: nat): nat
    requires k < |s.order| == |s.procs| && s.procs[k].script != [] && s.procs[k].script[0].cookie < |s.order|
  {
    if s.order[k] == root then s.order[s.procs[k].script[0].cookie] else s.order[k]
  }

  /** A gatherv's transfer is refused exactly when the leaf's segment ends past the sum of the counts. */
  lemma {:induction false} GathervRefuses(n: nat, root: nat, counts: seq<nat>, displs: seq<nat>, s: State, k: nat)
    requires 2 <= n && root < n && |counts| == |displs| == n
    requires Inv(Rooted(root, false), n, s) && WellFormed(n, s) && Enabled(Rooted(root, false), n, s, Copy(k))
    ensures |s.order| == |s.procs| && s.procs[k].script[0].cookie < |s.order| && Leaf(root, s, k) < n
    ensures Refused(Gatherv(n, root, counts, displs), s, Copy(k))
        <==> displs[Leaf(root, s, k)] + counts[Leaf(root, s, k)] > SumOf(counts)
  {
  }

  /** A gather's is refused exactly when the root makes it and its own rank plus the count passes the total. */
  lemma {:induction false} GatherRefuses(n: nat, root: nat, count: nat, s: State, k: nat)
    requires 2 <= n && root < n
    requires Inv(Rooted(root, false), n, s) && WellFormed(n, s) && Enabled(Rooted(root, false), n, s, Copy(k))
    ensures |s.order| == |s.procs| && s.procs[k].script[0].cookie < |s.order| && Leaf(root, s, k) < n
    ensures Refused(Gather(n, root, count), s, Copy(k))
        <==> s.order[k] == root && Leaf(root, s, k) + count > count * n
  {
    MultipleBelow(count, s.order[k], n);
  }

  /** A bcast and a scatter refuse nothing. */
  lemma {:induction false} NothingRefused(n: nat, root: nat, count: nat, s: State, k: nat)
    requires 2 <= n && root < n
    requires Inv(Rooted(root, true), n, s) && WellFormed(n, s) && Enabled(Rooted(root, true), n, s, Copy(k))
    ensures !Refused(Bcast(n, root, count), s, Copy(k)) && !Refused(Scatter(n, root, count), s, Copy(k))
  {
    MultipleBelow(count, s.order[k], n);
  }
}
