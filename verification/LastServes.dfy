/** Allgather, allreduce and scan: the last rank to join does all the serving after the lock. */
module LastServes {
  import opened Basics
  import opened Ledger
  import opened LedgerPlans
  import opened LedgerRuns
  import opened LedgerTheorems
  import opened LedgerProgress

  predicate Served(kind: Kind, n: nat) {
    n >= 2 && (kind.Allgather? || kind.AllreduceChain? || kind.AllreduceInPlace?)
  }

  /** Every rank but the last waits on a cookie of its own and has nothing to serve. */
  ghost predicate Idle(n: nat, s: State) {
    && |s.procs| <= n
    && forall k :: 0 <= k < |s.procs| && k != n - 1 ==> s.procs[k].handle == k && Uncopied(s.procs[k]) == []
  }

  lemma {:induction false} IdleStep(kind: Kind, n: nat, s: State, a: Action)
    requires !kind.Rooted? && Inv(kind, n, s) && WellFormed(n, s) && Enabled(kind, n, s, a) && Idle(n, s)
    ensures Idle(n, Next(kind, n, s, a))
  {
    var t := Next(kind, n, s, a);
    if a.Join? { UncopiedJoin(kind, n, s, a.rank); } else { OtherSteps(kind, n, s, a); }
    forall k | 0 <= k < |t.procs| && k != n - 1 ensures t.procs[k].handle == k && Uncopied(t.procs[k]) == [] {
      if k < |s.procs| { UncopiedStep(kind, n, s, a, k); }
    }
  }

  lemma {:induction false} AlwaysIdle(kind: Kind, n: nat, acts: seq<Action>)
    requires !kind.Rooted? && Sizes(kind, n) && After(kind, n, acts).Some?
    ensures Idle(n, After(kind, n, acts).value)
  {
    if acts != [] {
      AlwaysIdle(kind, n, acts[..|acts| - 1]);
      IdleStep(kind, n, After(kind, n, acts[..|acts| - 1]).value, acts[|acts| - 1]);
    }
  }

  /** The transfers still to be made are the same; at most a relink of the last rank is over. */
  ghost predicate SameWork(n: nat, s: State, t: State) {
    && t.order == s.order && |t.procs| == |s.procs|
    && (|s.procs| == n > 0 ==>
         var todo, later := Uncopied(s.procs[n - 1]), Uncopied(t.procs[n - 1]);
         && (later == todo || (todo != [] && later == todo[1..]))
         && (forall it :: it !in later && !it.Move? ==> it !in todo))
  }

  /** Steps other than joins and copies leave the transfers still to be made alone. */
  lemma {:induction false} SameTransfers(kind: Kind, n: nat, s: State, a: Action)
    requires Inv(kind, n, s) && WellFormed(n, s) && Enabled(kind, n, s, a) && !a.Join? && !a.Copy?
    ensures SameWork(n, s, Next(kind, n, s, a))
  {
    OtherSteps(kind, n, s, a);
    if |s.procs| == n > 0 {
      UncopiedStep(kind, n, s, a, n - 1);
      if Consumes(a, n - 1) {
        var todo := Uncopied(s.procs[n - 1]);
        assert todo == [todo[0]] + todo[1..];
      }
    }
  }

  /** A rank's wait returns only when all have joined and nothing is left to write to it. */
  lemma NothingLeft(kind: Kind, n: nat, s: State, k: nat)
    requires Served(kind, n) && Inv(kind, n, s) && Idle(n, s) && Completed(s, k)
    ensures |s.order| == n
    ensures k == n - 1 ==> Uncopied(s.procs[n - 1]) == []
    ensures k < n - 1 ==> Write(k) !in Uncopied(s.procs[n - 1])
  {
    ReturnedMeansServed(kind, n, s, k, k, 0);
    if k < n - 1 && Write(k) in Uncopied(s.procs[n - 1]) {
      var i :| 0 <= i < |Uncopied(s.procs[n - 1])| && Uncopied(s.procs[n - 1])[i] == Write(k);
      ReturnedMeansServed(kind, n, s, k, n - 1, i);
    }
  }
}
