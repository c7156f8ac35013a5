/**
  Gatherv and the total count: the root registers the sum of the counts, and every transfer is checked
  against it, so segments that leave gaps can be refused.
 */
module GathervTotals {
  import opened Basics
  import opened Ledger
  import opened LedgerPlans
  import opened LedgerRuns
  import opened LedgerTheorems
  import opened LedgerProgress
  import opened RootedCollectives
  import opened RootedCalls
  import opened CallTheorems
  import opened CallCompletion
  import opened RootUntouched

  // ---------- beyond the total ----------

  /** In no run does a transfer write past what the root registered. */
  lemma {:induction false} BeyondTotalKept<V>(sp: Spec, acts: seq<Action>, init: seq<seq<V>>, i: nat)
    requires !sp.toLeaves && Shape(sp, init) && After(KindOf(sp), sp.n, acts).Some?
    requires sp.total <= i < |init[sp.root]|
    ensures Kept(sp, acts, init, i)
  {
    if acts != [] {
      var prior := acts[..|acts| - 1];
      BeyondTotalKept(sp, prior, init, i);
      if acts[|acts| - 1].Copy? {
        var s := After(KindOf(sp), sp.n, prior).value;
        AlwaysTyped(sp, prior);
        var j := CopyServes(sp, s, acts[|acts| - 1].pos);
        CopyMisses(sp, s, Buffers(sp, prior, init), acts[|acts| - 1].pos, s.order[j], i);
      }
    }
  }

  lemma {:induction false} LostBeyond<V>(sp: Spec, events: seq<Event>, k: nat, r: nat, i: nat, a: V, b: V)
    requires !sp.toLeaves && Sized(sp) && a != b
    requires AfterCalls(sp, events).Some? && Ended(sp, AfterCalls(sp, events).value, k)
    requires r < sp.n && r != sp.root && sp.early[r] <= i < sp.early[r] + sp.len[r] && sp.total <= i
    ensures !Delivers(sp, events, TwoValues(sp, a, b), k)
  {
    TwoValuesLegal(sp, a, b);
    LedgerRun(sp, events);
    BeyondTotalKept(sp, Acts(events), TwoValues(sp, a, b), i);
    KeptIsLost(sp, events, k, r, i, a, b);
  }

  /** A leaf whose segment ends past the total is never delivered, whoever comes first. */
  lemma RefusedIsLost<V>(sp: Spec, r: nat, a: V, b: V) returns (events: seq<Event>, k: nat)
    requires !sp.toLeaves && Sized(sp) && a != b
    requires r < sp.n && r != sp.root && sp.len[r] > 0 && sp.early[r] + sp.len[r] > sp.total
    ensures !Delivers(sp, events, TwoValues(sp, a, b), k)
    ensures AfterCalls(sp, events).Some? && [sp.root] <= AfterCalls(sp, events).value.ledger.order
  {
    events, k := CompleteAfter(sp, [sp.root]);
    LostBeyond(sp, events, k, r, sp.early[r] + sp.len[r] - 1, a, b);
  }

  // ---------- behind a refusal ----------

  /** An event other than an accepted transfer changes no buffer. */
  lemma QuietEvent<V>(sp: Spec, events: seq<Event>, e: Event, init: seq<seq<V>>)
    requires Sized(sp) && Shape(sp, init) && AfterCalls(sp, events + [e]).Some?
    requires AfterCalls(sp, events).Some? && Typed(sp, AfterCalls(sp, events).value.ledger)
    requires e.Do? && e.action.Copy? ==> Possible(sp, AfterCalls(sp, events).value, e)
                                         && Refused(sp, AfterCalls(sp, events).value.ledger, e.action)
    ensures CallBuffers(sp, events + [e], init) == CallBuffers(sp, events, init)
  {
    assert (events + [e])[..|events|] == events;
    LedgerRun(sp, events);
    LedgerRun(sp, events + [e]);
    if e.Do? {
      assert (Acts(events) + [e.action])[..|Acts(events)|] == Acts(events);
      if e.action.Copy? {
        var j := CopyServes(sp, AfterCalls(sp, events).value.ledger, e.action.pos);
      }
    } else {
      assert Acts(events) + [] == Acts(events);
    }
  }

  /** The same, of a run's last event. */
  lemma LastIsQuiet<V>(sp: Spec, events: seq<Event>, e: Event, init: seq<seq<V>>)
    requires Sized(sp) && Shape(sp, init) && AfterCalls(sp, events + [e]).Some? && !(e.Do? && e.action.Copy?)
    ensures AfterCalls(sp, events).Some?
    ensures CallBuffers(sp, events + [e], init) == CallBuffers(sp, events, init)
  {
    assert (events + [e])[..|events|] == events;
    AlwaysCalls(sp, events);
    QuietEvent(sp, events, e, init);
  }

  lemma FirstIsQuiet<V>(sp: Spec, r: nat, init: seq<seq<V>>)
    requires Sized(sp) && Shape(sp, init) && AfterCalls(sp, [Do(Join(r))]).Some?
    ensures CallBuffers(sp, [Do(Join(r))], init) == init
  {
    assert [] + [Do(Join(r))] == [Do(Join(r))];
    LastIsQuiet(sp, [], Do(Join(r)), init);
  }

  lemma TwoAreQuiet<V>(sp: Spec, events: seq<Event>, e: Event, f: Event, init: seq<seq<V>>)
    requires Sized(sp) && Shape(sp, init) && AfterCalls(sp, events + [e] + [f]).Some?
    requires !(e.Do? && e.action.Copy?) && !(f.Do? && f.action.Copy?)
    ensures AfterCalls(sp, events).Some?
    ensures CallBuffers(sp, events + [e] + [f], init) == CallBuffers(sp, events, init)
  {
    LastIsQuiet(sp, events + [e], f, init);
    LastIsQuiet(sp, events, e, init);
  }

  lemma ArrivalIsQuiet<V>(sp: Spec, r: nat, q: nat, init: seq<seq<V>>)
    requires Sized(sp) && Shape(sp, init) && AfterCalls(sp, Arrival(r, q, sp.root)).Some?
    ensures CallBuffers(sp, Arrival(r, q, sp.root), init) == init
  {
    TwoAreQuiet(sp, [Do(Join(r))], Do(Join(q)), Do(Join(sp.root)), init);
    FirstIsQuiet(sp, r, init);
  }

  lemma RefusalIsQuiet<V>(sp: Spec, events: seq<Event>, order: seq<nat>, rest: seq<Item>, init: seq<seq<V>>)
    requires Shape(sp, init) && RootAt(sp, events, order, [Move(0)] + ([Read(0)] + rest), false, false)
    requires order[0] < sp.n && Sized(sp) && !Accepts(sp, order[0], true)
    ensures AfterCalls(sp, Refusal(events)).Some?
    ensures CallBuffers(sp, Refusal(events), init) == CallBuffers(sp, events, init)
  {
    var a := events + [Do(Relink(2))];
    var b := a + [Do(Copy(2))];
    var c := b + [Do(Notify(2))];
    RootRelinks(sp, events, order, 0, [Read(0)] + rest);
    RootIsRefused(sp, a, order, 0, rest);
    RefusedAt(sp, events, order, rest);
    RootFails(sp, c, order, rest);
    LastIsQuiet(sp, c, Fail(2), init);
    LastIsQuiet(sp, b, Do(Notify(2)), init);
    AlwaysCalls(sp, a);
    QuietEvent(sp, a, Do(Copy(2)), init);
    LastIsQuiet(sp, events, Do(Relink(2)), init);
  }

  /** So the whole of that run changes nothing. */
  lemma NothingArrives<V>(sp: Spec, r: nat, q: nat, init: seq<seq<V>>)
    requires !sp.toLeaves && Sized(sp) && Shape(sp, init) && sp.n > 2
    requires r < sp.n && r != sp.root && q < sp.n && q != sp.root && r != q && !Accepts(sp, r, true)
    ensures AfterCalls(sp, Refusal(Arrival(r, q, sp.root))).Some?
    ensures CallBuffers(sp, Refusal(Arrival(r, q, sp.root)), init) == init
  {
    var rest := [Move(1), Read(1)];
    ArriveBefore(sp, r, q);
    assert [Move(0), Read(0), Move(1), Read(1)] == [Move(0)] + ([Read(0)] + rest);
    RefusalIsQuiet(sp, Arrival(r, q, sp.root), [r, q, sp.root], rest, init);
    ArrivalIsQuiet(sp, r, q, init);
  }

  /** A rank refused although it sends nothing takes down the contribution of the rank behind it. */
  lemma BehindIsLost<V>(sp: Spec, r: nat, q: nat, a: V, b: V)
    requires !sp.toLeaves && Sized(sp) && a != b
    requires r < sp.n && r != sp.root && q < sp.n && q != sp.root && r != q
    requires !Accepts(sp, r, true) && sp.len[q] > 0
    ensures !Delivers(sp, Refusal(Arrival(r, q, sp.root)), TwoValues(sp, a, b), 2)
    ensures AfterCalls(sp, Refusal(Arrival(r, q, sp.root))).Some?
    ensures 2 in AfterCalls(sp, Refusal(Arrival(r, q, sp.root))).value.failed
  {
    ThreeFit(r, q, sp.root, sp.n);
    HangsBehind(sp, r, q);
    TwoValuesLegal(sp, a, b);
    NothingArrives(sp, r, q, TwoValues(sp, a, b));
    KeptIsMissing(sp, TwoValues(sp, a, b)[sp.root], q, sp.early[q], a, b);
  }

  lemma ThreeFit(r: nat, q: nat, root: nat, n: nat)
    requires r < n && q < n && root < n && r != q && r != root && q != root
    ensures n >= 3 && NoDup([r, q, root])
  {
  }

  // ---------- the exact condition ----------

  /**
    Whenever the root's call has returned, every contribution is in its place, in every run and for all
    contents, exactly when each leaf's segment ends within the sum of the counts, or no leaf contributes
    anything.
   */
  lemma GathervExactly<V(!new)>(n: nat, root: nat, counts: seq<nat>, displs: seq<nat>, a: V, b: V)
    requires 2 <= n && root < n && |counts| == |displs| == n && a != b
    requires Disjoint(Gatherv(n, root, counts, displs))
    ensures
      (forall events: seq<Event>, init: seq<seq<V>>, k: nat ::
         Delivers(Gatherv(n, root, counts, displs), events, init, k))
      <==>
      ((forall r :: 0 <= r < n && r != root ==> displs[r] + counts[r] <= SumOf(counts)) ||
       (forall r :: 0 <= r < n && r != root ==> counts[r] == 0))
  {
    var sp := Gatherv(n, root, counts, displs);
    GathervAdmits(n, root, counts, displs);
    if Admitted(sp) || Empty(sp) {
      forall events: seq<Event>, init: seq<seq<V>>, k: nat ensures Delivers(sp, events, init, k) {
        FitDelivers(sp, events, init, k);
      }
    } else {
      var r :| 0 <= r < n && r != root && !(Accepts(sp, r, false) && Accepts(sp, r, true));
      var q :| 0 <= q < n && q != root && counts[q] > 0;
      if counts[r] > 0 {
        var events, k := RefusedIsLost(sp, r, a, b);
        assert !Delivers(sp, events, TwoValues(sp, a, b), k);
      } else {
        BehindIsLost(sp, r, q, a, b);
        assert !Delivers(sp, Refusal(Arrival(r, q, root)), TwoValues(sp, a, b), 2);
      }
    }
  }

  /** One element from each of two ranks, placed at 0 and 5 of a buffer of six: the second never arrives. */
  lemma GapRefused<V>(events: seq<Event>, init: seq<seq<V>>)
    requires AfterCalls(Gatherv(2, 0, [1, 1], [0, 5]), events).Some?
    requires |init| == 2 && |init[0]| == 6 && |init[1]| == 1
    ensures Legal(Gatherv(2, 0, [1, 1], [0, 5]), init)
    ensures |CallBuffers(Gatherv(2, 0, [1, 1], [0, 5]), events, init)[0]| == 6
    ensures CallBuffers(Gatherv(2, 0, [1, 1], [0, 5]), events, init)[0][5] == init[0][5]
  {
    assert [1, 1][..1] == [1] && [1][..0] == [];
    assert SumOf([1]) == 1 && SumOf([1, 1]) == 2;
    LedgerRun(Gatherv(2, 0, [1, 1], [0, 5]), events);
    BeyondTotalKept(Gatherv(2, 0, [1, 1], [0, 5]), Acts(events), init, 5);
  }
}
