/**
  Gather and the count: where the two sides of the root's arrival put a rank's data, and exactly when
  gather therefore delivers.
 */
module GatherPlacement {
  import opened Basics
  import opened Ledger
  import opened LedgerRuns
  import opened LedgerTheorems
  import opened LedgerProgress
  import opened RootedCollectives
  import opened RootedCalls
  import opened CallTheorems
  import opened CallCompletion
  import opened RootUntouched

  /** Gather's two placements agree exactly for counts up to one (or when rank 0 is the only leaf). */
  lemma GatherPlacementsAgree(n: nat, root: nat, count: nat)
    requires 2 <= n && root < n
    ensures var sp := Gather(n, root, count);
      (forall r :: 0 <= r < n && r != root ==> sp.early[r] == sp.late[r] || sp.len[r] == 0)
      <==> count <= 1 || (n == 2 && root == 1)
  {
    var sp := Gather(n, root, count);
    if count > 1 && !(n == 2 && root == 1) {
      var r := if root == 1 then 2 else 1;
      assert sp.early[r] == count * r > r == sp.late[r];
    }
  }

  lemma Segments(n: nat, root: nat, count: nat)
    requires 2 <= n && root < n
    ensures Disjoint(Gather(n, root, count))
  {
    var sp := Gather(n, root, count);
    forall q, r, i: nat | 0 <= q < n && 0 <= r < n && q != root && r != root && q != r
      ensures !(InSegment(sp, q, i) && InSegment(sp, r, i))
    {
      if q < r { MultipleBelow(count, q, r); } else { MultipleBelow(count, r, q); }
    }
  }

  /** A gather of at least one element is refused nothing, on either path. */
  lemma {:induction false} GatherAdmits(n: nat, root: nat, count: nat)
    requires 2 <= n && root < n && count >= 1
    ensures Admitted(Gather(n, root, count))
  {
    forall r | 0 <= r < n ensures count * r + count <= count * n && r + count <= count * n {
      MultipleBelow(count, r, n);
      RankFits(count, r, n);
    }
  }

  /** Under that condition gather collects rank r's data at count * r, like gatherv. */
  lemma GatherFits<V>(n: nat, root: nat, count: nat, init: seq<seq<V>>)
    requires |init| == n >= 2 && root < n && |init[root]| == count * n
    requires forall r :: 0 <= r < n && r != root ==> |init[r]| == count
    requires count <= 1 || (n == 2 && root == 1)
    ensures Fits(Gather(n, root, count), init) && Disjoint(Gather(n, root, count))
  {
    GatherPlacementsAgree(n, root, count);
    Segments(n, root, count);
    if count != 0 { GatherAdmits(n, root, count); }
    forall r | 0 <= r < n ensures count * r + count <= count * n { MultipleBelow(count, r, n); }
  }

  // ---------- a leaf that precedes the root ----------

  /** Rank r first, the root second: the last element of r's place lies past where the root puts r's data. */
  lemma MissedEitherWay(n: nat, root: nat, count: nat, r: nat, q: nat, late: bool)
    requires 2 <= n && root < n && count >= 2 && 1 <= r < n && r != root && q < n && q != root
    requires late <==> q == r
    ensures Misses(Gather(n, root, count), q, late, count * r + count - 1)
  {
    if q == r {
      assert count * r == r + (count - 1) * r;
      assert (count - 1) * r >= 1;
    } else if q < r {
      MultipleBelow(count, q, r);
    } else {
      MultipleBelow(count, r, q);
    }
  }

  lemma {:induction false} MisplacedKept<V>(n: nat, root: nat, count: nat, r: nat, acts: seq<Action>,
          init: seq<seq<V>>, i: nat)
    requires 2 <= n && root < n && count >= 2 && 1 <= r < n && r != root
    requires Shape(Gather(n, root, count), init) && After(Rooted(root, false), n, acts).Some?
    requires Begins(After(Rooted(root, false), n, acts).value.order, [r, root])
    requires i == count * r + count - 1 < |init[root]|
    ensures Kept(Gather(n, root, count), acts, init, i)
  {
    if acts != [] {
      var sp := Gather(n, root, count);
      var prior, a := acts[..|acts| - 1], acts[|acts| - 1];
      var s := After(KindOf(sp), n, prior).value;
      BeganBefore(KindOf(sp), n, s, a, [r, root]);
      MisplacedKept(n, root, count, r, prior, init, i);
      if a.Copy? {
        AlwaysTyped(sp, prior);
        var j := CopyServes(sp, s, a.pos);
        ServedLate(sp, s, a.pos, j, r);
        MissedEitherWay(n, root, count, r, s.order[j], s.order[a.pos] == root);
        CopyMisses(sp, s, Buffers(sp, prior, init), a.pos, s.order[j], i);
      }
    }
  }

  /** The first rank is served by the root, and everybody else serves himself. */
  lemma ServedLate(sp: Spec, s: State, k: nat, j: nat, r: nat)
    requires Inv(KindOf(sp), sp.n, s) && WellFormed(sp.n, s) && Enabled(KindOf(sp), sp.n, s, Copy(k))
    requires r != sp.root && Begins(s.order, [r, sp.root])
    requires j < |s.order| && s.order[j] != sp.root && s.procs[k].script[0].cookie < k
    requires (s.order[k] == sp.root && s.procs[k].script[0] == RootItem(sp, j))
          || (k == j && s.order[s.procs[k].script[0].cookie] == sp.root)
    ensures s.order[k] == sp.root <==> s.order[j] == r
  {
    assert |s.order| > 1 && s.order[0] == r && s.order[1] == sp.root;
    if s.order[k] == sp.root { assert k == 1; } else { assert s.procs[k].script[0].cookie == 1; }
  }

  lemma {:induction false} MisplacedIsLost<V>(n: nat, root: nat, count: nat, r: nat, events: seq<Event>, k: nat,
          a: V, b: V)
    requires 2 <= n && root < n && count >= 2 && 1 <= r < n && r != root && a != b
    requires AfterCalls(Gather(n, root, count), events).Some?
    requires Ended(Gather(n, root, count), AfterCalls(Gather(n, root, count), events).value, k)
    requires [r, root] <= AfterCalls(Gather(n, root, count), events).value.ledger.order
    ensures !Delivers(Gather(n, root, count), events, TwoValues(Gather(n, root, count), a, b), k)
  {
    var sp := Gather(n, root, count);
    TwoValuesLegal(sp, a, b);
    LedgerRun(sp, events);
    var i := count * r + count - 1;
    assert sp.early[r] <= i < sp.early[r] + sp.len[r];
    MisplacedKept(n, root, count, r, Acts(events), TwoValues(sp, a, b), i);
    KeptIsLost(sp, events, k, r, i, a, b);
  }

  /** With a larger count, a rank other than 0 that arrives just before the root is misplaced in a completed run. */
  lemma GatherMisplaces<V>(n: nat, root: nat, count: nat, r: nat, a: V, b: V) returns (events: seq<Event>, k: nat)
    requires 2 <= n && root < n && count >= 2 && 1 <= r < n && r != root && a != b
    ensures AfterCalls(Gather(n, root, count), events).Some?
    ensures var x := AfterCalls(Gather(n, root, count), events).value;
      Ended(Gather(n, root, count), x, k) && x.failed == {}
    ensures !Delivers(Gather(n, root, count), events, TwoValues(Gather(n, root, count), a, b), k)
  {
    GatherAdmits(n, root, count);
    events, k := CompleteAfter(Gather(n, root, count), [r, root]);
    NeverRefused(Gather(n, root, count), events);
    MisplacedIsLost(n, root, count, r, events, k, a, b);
  }

  /**
    Gather delivers every contribution in every run and for all contents exactly when the count is at
    most one, or rank 0 is the only leaf.
   */
  lemma GatherExactly<V(!new)>(n: nat, root: nat, count: nat, a: V, b: V)
    requires 2 <= n && root < n && a != b
    ensures
      (forall events: seq<Event>, init: seq<seq<V>>, k: nat :: Delivers(Gather(n, root, count), events, init, k))
      <==> count <= 1 || (n == 2 && root == 1)
  {
    var sp := Gather(n, root, count);
    if count <= 1 || (n == 2 && root == 1) {
      GatherPlacementsAgree(n, root, count);
      Segments(n, root, count);
      if count != 0 { GatherAdmits(n, root, count); }
      forall events: seq<Event>, init: seq<seq<V>>, k: nat ensures Delivers(sp, events, init, k) {
        FitDelivers(sp, events, init, k);
      }
    } else {
      var events, k := GatherMisplaces(n, root, count, if root == 1 then 2 else 1, a, b);
      assert !Delivers(sp, events, TwoValues(sp, a, b), k);
    }
  }

  /** A gather of nothing is still refused on the late path, for every rank but 0; the buffers do not change. */
  lemma GatherOfNothing(n: nat, root: nat, r: nat)
    requires 2 <= n && root < n && r < n && r != root
    ensures Accepts(Gather(n, root, 0), r, false)
    ensures Accepts(Gather(n, root, 0), r, true) <==> r == 0
  {
  }
}
