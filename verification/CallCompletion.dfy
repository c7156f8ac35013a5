/**
  Exactly when every call of a bcast, scatter or gather(v) returns and no node that somebody holds is
  destroyed, and the runs in which a refused root leaves a rank asleep for ever.
 */
module CallCompletion {
  import opened Basics
  import opened Ledger
  import opened LedgerPlans
  import opened LedgerRuns
  import opened LedgerTheorems
  import opened LedgerProgress
  import opened RootedCollectives
  import opened RootedCalls
  import opened CallTheorems

  // ---------- a leaf behind a refused one ----------

  /** Only joins so far, by these ranks, which have not gone on since. */
  ghost predicate Entered(sp: Spec, events: seq<Event>, order: seq<nat>, procs: seq<Proc>) {
    Sized(sp) && AfterCalls(sp, events).Some? &&
    var x := AfterCalls(sp, events).value;
    && x.ledger.order == order && |order| == |procs| && x.ledger.procs == procs
    && x.refused == x.failed == x.destroyed == {}
    && forall k :: 0 <= k < |procs| ==> procs[k].phase == Serving
  }

  lemma Enters(sp: Spec, events: seq<Event>, order: seq<nat>, procs: seq<Proc>, r: nat)
    requires Entered(sp, events, order, procs) && |order| < sp.n && r < sp.n && r !in order
    ensures Joinable(KindOf(sp), sp.n, order, BoxOf(KindOf(sp), sp.n, order), r)
    ensures var p := PlanFor(KindOf(sp), sp.n, order, BoxOf(KindOf(sp), sp.n, order), r);
      Entered(sp, events + [Do(Join(r))], order + [r], procs + [Proc(p.script, false, p.handle, Serving)])
  {
    var s := AfterCalls(sp, events).value.ledger;
    JoinEnabled(KindOf(sp), sp.n, s, r);
    ExtendCalls(sp, events, Do(Join(r)));
    UncopiedJoin(KindOf(sp), sp.n, s, r);
    var t := Next(KindOf(sp), sp.n, s, Join(r));
    forall k | 0 <= k < |procs| ensures t.procs[k] == procs[k] {
      OwnSteps(KindOf(sp), sp.n, s, Join(r), k);
      UncopiedStep(KindOf(sp), sp.n, s, Join(r), k);
    }
    assert t.procs == procs + [t.procs[|procs|]];
  }

  lemma EntersFirst(sp: Spec, events: seq<Event>, order: seq<nat>, procs: seq<Proc>, r: nat)
    requires Entered(sp, events, order, procs) && |order| + 1 < sp.n && r < sp.n && r !in order
    requires r != sp.root && sp.root !in order
    ensures Entered(sp, events + [Do(Join(r))], order + [r], procs + [Proc([], false, |order|, Serving)])
  {
    Enters(sp, events, order, procs, r);
    assert order != [] ==> order[Iota(|order|)[0]] in order;
  }

  lemma EntersRoot(sp: Spec, events: seq<Event>, order: seq<nat>, procs: seq<Proc>) returns (handle: nat)
    requires Entered(sp, events, order, procs) && |order| < sp.n && sp.root !in order
    ensures Entered(sp, events + [Do(Join(sp.root))], order + [sp.root],
                    procs + [Proc(Serve(Iota(|order|), sp.toLeaves), false, handle, Serving)])
  {
    Enters(sp, events, order, procs, sp.root);
    handle := PlanFor(KindOf(sp), sp.n, order, BoxOf(KindOf(sp), sp.n, order), sp.root).handle;
  }

  /** Leaves r and q wait on cookies of their own, and the root serves them in this order. */
  ghost predicate RootAt(sp: Spec, events: seq<Event>, order: seq<nat>, script: seq<Item>,
          copied: bool, refused: bool)
  {
    Sized(sp) && AfterCalls(sp, events).Some? &&
    var x := AfterCalls(sp, events).value;
    && x.ledger.order == order && |order| == |x.ledger.procs| == 3 && order[2] == sp.root
    && x.ledger.procs[2].script == script && x.ledger.procs[2].copied == copied
    && x.failed == x.destroyed == {} && x.refused == if refused then {2} else {}
  }

  /** Leaves r and q arrive, then the root. */
  function Arrival(r: nat, q: nat, root: nat): seq<Event> { [Do(Join(r))] + [Do(Join(q))] + [Do(Join(root))] }

  lemma NoneEntered(sp: Spec)
    requires Sized(sp)
    ensures Entered(sp, [], [], [])
  {
  }

  lemma OneEntered(sp: Spec, r: nat, none: seq<Event>, first: seq<Event>)
    requires Sized(sp) && sp.n > 2 && r < sp.n && r != sp.root
    requires Entered(sp, none, [], []) && first == none + [Do(Join(r))]
    ensures Entered(sp, first, [r], [Proc([], false, 0, Serving)])
  {
    EntersFirst(sp, none, [], [], r);
    assert [] + [r] == [r] && [] + [Proc([], false, 0, Serving)] == [Proc([], false, 0, Serving)];
  }

  lemma TwoEntered(sp: Spec, r: nat, q: nat, first: seq<Event>, own: seq<Proc>)
    requires Sized(sp) && sp.n > 2 && r < sp.n && q < sp.n && r != q && r != sp.root && q != sp.root
    requires |own| == 1 && Entered(sp, first, [r], own)
    ensures Entered(sp, first + [Do(Join(q))], [r, q], own + [Proc([], false, 1, Serving)])
  {
    EntersFirst(sp, first, [r], own, q);
    assert [r] + [q] == [r, q];
  }

  lemma ThreeEntered(sp: Spec, r: nat, q: nat, first: seq<Event>, own: seq<Proc>)
    requires Sized(sp) && !sp.toLeaves && sp.n > 2 && r != sp.root && q != sp.root && r != q
    requires |own| == 2 && Entered(sp, first, [r, q], own)
    ensures RootAt(sp, first + [Do(Join(sp.root))], [r, q, sp.root], [Move(0), Read(0), Move(1), Read(1)], false, false)
  {
    var handle := EntersRoot(sp, first, [r, q], own);
    ServesTwo();
    assert [r, q] + [sp.root] == [r, q, sp.root];
  }

  lemma ArriveBefore(sp: Spec, r: nat, q: nat)
    requires Sized(sp) && !sp.toLeaves && sp.n > 2 && r < sp.n && q < sp.n && r != q && r != sp.root && q != sp.root
    ensures RootAt(sp, Arrival(r, q, sp.root), [r, q, sp.root], [Move(0), Read(0), Move(1), Read(1)], false, false)
  {
    var own := [Proc([], false, 0, Serving)];
    NoneEntered(sp);
    OneEntered(sp, r, [], [Do(Join(r))]);
    TwoEntered(sp, r, q, [Do(Join(r))], own);
    ThreeEntered(sp, r, q, [Do(Join(r))] + [Do(Join(q))], own + [Proc([], false, 1, Serving)]);
  }

  lemma ServesTwo()
    ensures Serve(Iota(2), false) == [Move(0), Read(0), Move(1), Read(1)]
  {
    assert Iota(2) == [0, 1] && Iota(2)[1..] == [1] && Iota(2)[1..][1..] == [];
  }

  lemma RootRelinks(sp: Spec, events: seq<Event>, order: seq<nat>, c: nat, rest: seq<Item>)
    requires RootAt(sp, events, order, [Move(c)] + rest, false, false)
    ensures RootAt(sp, events + [Do(Relink(2))], order, rest, false, false)
  {
    ExtendCalls(sp, events, Do(Relink(2)));
  }

  lemma RootIsRefused(sp: Spec, events: seq<Event>, order: seq<nat>, c: nat, rest: seq<Item>)
    requires RootAt(sp, events, order, [Read(c)] + rest, false, false) && c < |order|
    requires order[c] < sp.n && Sized(sp) && !Accepts(sp, order[c], true)
    ensures RootAt(sp, events + [Do(Copy(2))], order, [Read(c)] + rest, true, true)
  {
    ExtendCalls(sp, events, Do(Copy(2)));
  }

  lemma RootReports(sp: Spec, events: seq<Event>, order: seq<nat>, c: nat, rest: seq<Item>)
    requires RootAt(sp, events, order, [Read(c)] + rest, true, true)
    ensures RootAt(sp, events + [Do(Notify(2))], order, rest, false, true)
  {
    ExtendCalls(sp, events, Do(Notify(2)));
  }

  lemma RootFails(sp: Spec, events: seq<Event>, order: seq<nat>, script: seq<Item>)
    requires RootAt(sp, events, order, script, false, true)
    ensures AfterCalls(sp, events + [Fail(2)]).Some?
    ensures var x := AfterCalls(sp, events + [Fail(2)]).value;
      x.ledger.order == order && x.failed == {2} && x.destroyed == Listed(script)
  {
    ExtendCalls(sp, events, Fail(2));
  }

  /** The root relinks r's cookie, is refused its transfer, reports that and returns the error. */
  function Refusal(events: seq<Event>): seq<Event> {
    events + [Do(Relink(2))] + [Do(Copy(2))] + [Do(Notify(2))] + [Fail(2)]
  }

  lemma RefusedAt(sp: Spec, events: seq<Event>, order: seq<nat>, rest: seq<Item>)
    requires RootAt(sp, events, order, [Move(0)] + ([Read(0)] + rest), false, false)
    requires order[0] < sp.n && Sized(sp) && !Accepts(sp, order[0], true)
    ensures RootAt(sp, events + [Do(Relink(2))] + [Do(Copy(2))] + [Do(Notify(2))], order, rest, false, true)
  {
    RootRelinks(sp, events, order, 0, [Read(0)] + rest);
    RootIsRefused(sp, events + [Do(Relink(2))], order, 0, rest);
    RootReports(sp, events + [Do(Relink(2))] + [Do(Copy(2))], order, 0, rest);
  }

  lemma RefusalRuns(sp: Spec, events: seq<Event>, order: seq<nat>, script: seq<Item>)
    requires RootAt(sp, events, order, script, false, false) && script == [Move(0), Read(0), Move(1), Read(1)]
    requires order[0] < sp.n && Sized(sp) && !Accepts(sp, order[0], true)
    ensures AfterCalls(sp, Refusal(events)).Some?
    ensures var x := AfterCalls(sp, Refusal(events)).value;
      x.failed == {2} && 1 in x.destroyed && x.ledger.order == order
  {
    var rest := [Move(1), Read(1)];
    assert script == [Move(0)] + ([Read(0)] + rest);
    RefusedAt(sp, events, order, rest);
    RootFails(sp, events + [Do(Relink(2))] + [Do(Copy(2))] + [Do(Notify(2))], order, rest);
    assert rest[0].cookie in Listed(rest);
  }

  // ---------- for ever ----------

  /** A rank whose cookie has been destroyed never returns from its call. */
  lemma {:induction false} SleepsForEver(sp: Spec, events: seq<Event>, all: seq<Event>, c: nat)
    requires Sized(sp) && AfterCalls(sp, events).Some? && c in AfterCalls(sp, events).value.destroyed
    requires events <= all && AfterCalls(sp, all).Some?
    ensures c in AfterCalls(sp, all).value.destroyed && !Over(sp, AfterCalls(sp, all).value)
    decreases |all|
  {
    AlwaysCalls(sp, all);
    if all == events {
    } else {
      var prior := all[..|all| - 1];
      assert events <= prior;
      SleepsForEver(sp, events, prior, c);
      AlwaysCalls(sp, prior);
      EventKeeps(sp, AfterCalls(sp, prior).value, all[|all| - 1]);
    }
    Destroyed(sp, AfterCalls(sp, all).value, c);
  }

  lemma HangsBehind(sp: Spec, r: nat, q: nat)
    requires Sized(sp) && sp.n > 2 && r < sp.n && q < sp.n && r != q && r != sp.root && q != sp.root
    requires !Accepts(sp, r, true)
    ensures var events := Refusal(Arrival(r, q, sp.root));
      && AfterCalls(sp, events).Some? && 1 in AfterCalls(sp, events).value.destroyed && !Completable(sp, events)
      && AfterCalls(sp, events).value.ledger.order == [r, q, sp.root] && AfterCalls(sp, events).value.failed == {2}
  {
    var events := Refusal(Arrival(r, q, sp.root));
    ArriveBefore(sp, r, q);
    RefusalRuns(sp, Arrival(r, q, sp.root), [r, q, sp.root], [Move(0), Read(0), Move(1), Read(1)]);
    forall all | events <= all && AfterCalls(sp, all).Some? ensures !Over(sp, AfterCalls(sp, all).value) {
      SleepsForEver(sp, events, all, 1);
    }
  }

  // ---------- the exact condition ----------

  /** Every call can return, and no node has been destroyed under its holder. */
  ghost predicate EndsWell(sp: Spec, events: seq<Event>)
    requires Sized(sp)
  {
    AfterCalls(sp, events).Some? ==> Completable(sp, events) && AfterCalls(sp, events).value.destroyed == {}
  }

  lemma {:induction false} GentleEndsWell(sp: Spec, events: seq<Event>)
    requires Sized(sp) && (sp.n == 2 || !LateRefusal(sp))
    ensures EndsWell(sp, events)
  {
    if AfterCalls(sp, events).Some? {
      AlwaysCalls(sp, events);
      GentleKeeps(sp, AfterCalls(sp, events).value);
      var all := GentlyCompletes(sp, events, Remaining(sp, AfterCalls(sp, events).value));
    }
  }

  /**
    Every run of calls can be carried on until all have returned, and destroys no node, exactly when there
    are two ranks or no leaf is refused when it comes before the root.
   */
  lemma {:induction false} CompletesExactly(sp: Spec)
    requires Sized(sp)
    ensures (forall events: seq<Event> :: EndsWell(sp, events)) <==> sp.n == 2 || !LateRefusal(sp)
  {
    if sp.n == 2 || !LateRefusal(sp) {
      forall events: seq<Event> ensures EndsWell(sp, events) { GentleEndsWell(sp, events); }
    } else {
      var r :| 0 <= r < sp.n && r != sp.root && !Accepts(sp, r, true);
      var q := Another(sp.n, sp.root, r);
      HangsBehind(sp, r, q);
      assert !EndsWell(sp, Refusal(Arrival(r, q, sp.root)));
    }
  }

  lemma Another(n: nat, root: nat, r: nat) returns (q: nat)
    requires n > 2
    ensures q < n && q != r && q != root
  {
    q := if r != 0 && root != 0 then 0 else if r != 1 && root != 1 then 1 else 2;
  }

  // ---------- the operations ----------

  /** Bcast and scatter refuse nothing late, and always complete. */
  lemma {:induction false} BcastAndScatterComplete(n: nat, root: nat, count: nat, events: seq<Event>)
    requires 2 <= n && root < n
    ensures EndsWell(Bcast(n, root, count), events) && EndsWell(Scatter(n, root, count), events)
  {
    GentleEndsWell(Bcast(n, root, count), events);
    GentleEndsWell(Scatter(n, root, count), events);
  }

  lemma {:induction false} LateGatherAt(n: nat, root: nat, count: nat, r: nat)
    requires 2 < n && root < n && r < n
    ensures count > 0 ==> Accepts(Gather(n, root, count), r, true)
    ensures count == 0 ==> (Accepts(Gather(n, root, count), r, true) <==> r == 0)
  {
    if count > 0 { RankFits(count, r, n); }
  }

  lemma {:induction false} LateGather(n: nat, root: nat, count: nat)
    requires 2 < n && root < n
    ensures LateRefusal(Gather(n, root, count)) <==> count == 0
  {
    if count == 0 {
      LateGatherAt(n, root, count, if root == 1 then 2 else 1);
    } else {
      forall r | 0 <= r < n ensures Accepts(Gather(n, root, count), r, true) { LateGatherAt(n, root, count, r); }
    }
  }

  lemma {:induction false} RankFits(count: nat, r: nat, n: nat)
    requires r < n && count > 0
    ensures r + count <= count * n
  {
    MultipleBelow(count, r, n);
    assert count * r == r + (count - 1) * r;
    assert (count - 1) * r >= 0;
  }

  /** Gather: every call returns and nothing is destroyed exactly for two ranks or a count above 0. */
  lemma {:induction false} GatherCompletesExactly(n: nat, root: nat, count: nat)
    requires 2 <= n && root < n
    ensures (forall events: seq<Event> :: EndsWell(Gather(n, root, count), events)) <==> n == 2 || count >= 1
  {
    CompletesExactly(Gather(n, root, count));
    if n > 2 { LateGather(n, root, count); }
  }

  /** Gatherv: exactly for two ranks or when every leaf's segment ends within the sum of the counts. */
  lemma {:induction false} GathervCompletesExactly(n: nat, root: nat, counts: seq<nat>, displs: seq<nat>)
    requires 2 <= n && root < n && |counts| == |displs| == n
    ensures (forall events: seq<Event> :: EndsWell(Gatherv(n, root, counts, displs), events)) <==>
      n == 2 || forall r :: 0 <= r < n && r != root ==> displs[r] + counts[r] <= SumOf(counts)
  {
    var sp := Gatherv(n, root, counts, displs);
    CompletesExactly(sp);
    if !LateRefusal(sp) {
      forall r | 0 <= r < n && r != root ensures displs[r] + counts[r] <= SumOf(counts) {
        assert Accepts(sp, r, true);
      }
    }
  }

  /**
    Three ranks gather nothing at rank 0, which comes last: rank 1's empty contribution is refused, rank
    0 returns the error, and rank 2 never returns, whatever happens afterwards.
   */
  lemma GatherOfNothingHangs(all: seq<Event>)
    requires Refusal(Arrival(1, 2, 0)) <= all && AfterCalls(Gather(3, 0, 0), all).Some?
    ensures !Over(Gather(3, 0, 0), AfterCalls(Gather(3, 0, 0), all).value)
    ensures 1 in AfterCalls(Gather(3, 0, 0), all).value.destroyed
  {
    var sp := Gather(3, 0, 0);
    assert !Accepts(sp, 1, true);
    HangsBehind(sp, 1, 2);
    SleepsForEver(sp, Refusal(Arrival(1, 2, 0)), all, 1);
  }

  // ---------- when nothing is refused ----------

  /** Then no call fails, and the ledger's own theorems hold of every run of calls as they stand. */
  lemma {:induction false} NeverRefused(sp: Spec, events: seq<Event>)
    requires Sized(sp) && Admitted(sp) && AfterCalls(sp, events).Some?
    ensures var x := AfterCalls(sp, events).value; x.refused == x.failed == x.destroyed == {}
    ensures After(KindOf(sp), sp.n, Acts(events)) == Some(AfterCalls(sp, events).value.ledger)
  {
    LedgerRun(sp, events);
    if events != [] {
      var prior, e := events[..|events| - 1], events[|events| - 1];
      NeverRefused(sp, prior);
      AlwaysCalls(sp, prior);
      if e.Do? && e.action.Copy? {
        var j := CopyServes(sp, AfterCalls(sp, prior).value.ledger, e.action.pos);
      }
    }
  }
}
