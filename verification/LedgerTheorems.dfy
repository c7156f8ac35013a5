/**
  Whole-run guarantees of the collective protocols, for every kind, size and interleaving, while no call
  returns an error. `CallTheorems` and `CallCompletion` say what error returns leave of them, and when.
 */
module LedgerTheorems {
  import opened Basics
  import opened Ledger
  import opened LedgerPlans
  import opened LedgerRuns

  /** The state after a sequence of steps, or None when one of them was not enabled. */
  function After(kind: Kind, n: nat, acts: seq<Action>): (s: Option<State>)
    requires Sizes(kind, n)
    ensures s.Some? ==> Inv(kind, n, s.value) && WellFormed(n, s.value)
  {
    if acts == [] then Some(INIT) else
    var prev := After(kind, n, acts[..|acts| - 1]);
    var a := acts[|acts| - 1];
    if prev.None? || !Enabled(kind, n, prev.value, a) then None else
    NextInv(kind, n, prev.value, a);
    InvWellFormed(kind, n, Next(kind, n, prev.value, a));
    Some(Next(kind, n, prev.value, a))
  }

  ghost predicate AllServed(n: nat, s: State) {
    |s.order| == n && forall k :: 0 <= k < |s.procs| ==> s.procs[k].script == []
  }

  lemma {:induction false} NoScriptsNothingOwed(procs: seq<Proc>, move: bool, c: nat)
    requires forall k :: 0 <= k < |procs| ==> procs[k].script == []
    ensures Owed(procs, move, c) == 0
  {
    if procs != [] { NoScriptsNothingOwed(procs[..|procs| - 1], move, c); }
  }

  /** In every reachable state a cookie's count is exactly the number of transfers still to come. */
  lemma {:induction false} TransferLedger(kind: Kind, n: nat, acts: seq<Action>, c: nat)
    requires Sizes(kind, n) && After(kind, n, acts).Some?
    requires c < |After(kind, n, acts).value.cookies|
    ensures var s := After(kind, n, acts).value; var ck := s.cookies[c];
      && ck.busy >= 0
      && (ck.place != Nowhere ==> ck.busy == Owed(s.procs, false, c) + Future(kind, n, s.order, c))
      && (AllServed(n, s) ==> ck.busy == 0)
  {
    var s := After(kind, n, acts).value;
    assert CookieInv(kind, n, s, c);
    if AllServed(n, s) { NoScriptsNothingOwed(s.procs, false, c); }
  }

  lemma {:induction false} HolderCounted(procs: seq<Proc>, k: nat, c: nat)
    requires k < |procs| && Holds(procs[k], c) == 1
    ensures LiveHandles(procs, c) > 0
  {
    if k < |procs| - 1 { HolderCounted(procs[..|procs| - 1], k, c); }
  }

  /** Bytes move, and counts drop, only while the owner is still inside its wait or before it. */
  lemma {:induction false} NoTransferAfterCompletion(kind: Kind, n: nat, acts: seq<Action>, k: nat)
    requires Sizes(kind, n) && After(kind, n, acts).Some?
    requires var s := After(kind, n, acts).value; Enabled(kind, n, s, Copy(k)) || Enabled(kind, n, s, Notify(k))
    ensures var s := After(kind, n, acts).value; var c := s.procs[k].script[0].cookie;
      && s.cookies[c].busy > 0
      && s.procs[c].handle == c && (s.procs[c].phase == Serving || s.procs[c].phase == Blocked)
      && s.cookies[c].used > 0
      && s.cookies[c].place != Nowhere && s.cookies[c].place != Reclaimed
  {
    var s := After(kind, n, acts).value;
    var c := s.procs[k].script[0].cookie;
    HeadOwed(s, k, c);
    assert CookieInv(kind, n, s, c) && ProcInv(s, c);
    HolderCounted(s.procs, c, c);
  }

  /** A process asleep in wait always has a transfer, hence a future notification, coming. */
  lemma {:induction false} NoLostWakeup(kind: Kind, n: nat, acts: seq<Action>, k: nat)
    requires Sizes(kind, n) && After(kind, n, acts).Some?
    requires k < |After(kind, n, acts).value.procs|
    ensures var s := After(kind, n, acts).value; var p := s.procs[k];
      && (p.phase == Blocked ==> p.handle == k && Owed(s.procs, false, k) + Future(kind, n, s.order, k) > 0)
      && (p.phase == Signalled || (p.handle == k && (p.phase == Returned || p.phase == Left)) ==>
            Owed(s.procs, false, k) + Future(kind, n, s.order, k) == 0)
  {
    var s := After(kind, n, acts).value;
    assert ProcInv(s, k) && CookieInv(kind, n, s, k);
  }

  /** The positions that hold a handle on cookie c and have not left. */
  ghost function Holders(procs: seq<Proc>, c: nat): set<nat> {
    set i: nat | i < |procs| && procs[i].handle == c && procs[i].phase != Left
  }

  lemma {:induction false} LiveHandlesAre(procs: seq<Proc>, c: nat)
    ensures LiveHandles(procs, c) == |Holders(procs, c)|
  {
    if procs == [] {
      assert Holders(procs, c) == {};
    } else {
      var m := |procs| - 1;
      LiveHandlesAre(procs[..m], c);
      assert m !in Holders(procs[..m], c);
      assert Holders(procs, c) == Holders(procs[..m], c) + (if Holds(procs[m], c) == 1 then {m} else {});
    }
  }

  /** `used_` is the number of live handles, and a cookie with a live handle is never reclaimed. */
  lemma {:induction false} HandleSafety(kind: Kind, n: nat, acts: seq<Action>, k: nat)
    requires Sizes(kind, n) && After(kind, n, acts).Some?
    requires k < |After(kind, n, acts).value.procs|
    ensures var s := After(kind, n, acts).value; var c := s.procs[k].handle;
      && s.cookies[c].used == LiveHandles(s.procs, c)
      && s.cookies[c].used == |set i: nat | i < |s.procs| && s.procs[i].handle == c && s.procs[i].phase != Left|
      && (s.procs[k].phase != Left ==> s.cookies[c].place != Nowhere && s.cookies[c].place != Reclaimed)
  {
    var s := After(kind, n, acts).value;
    var c := s.procs[k].handle;
    LiveHandlesAre(s.procs, c);
    assert ProcInv(s, k) && CookieInv(kind, n, s, c);
    if s.procs[k].phase != Left { HolderCounted(s.procs, k, c); }
  }

  /** The slot's box is in use exactly while some but not all ranks have joined; no cookie is linked twice. */
  lemma {:induction false} BoxInUse(kind: Kind, n: nat, acts: seq<Action>)
    requires Sizes(kind, n) && After(kind, n, acts).Some?
    ensures var s := After(kind, n, acts).value;
      && |s.order| <= n
      && (s.box != [] <==> 0 < |s.order| < n)
      && NoDup(s.box)
      && forall c :: 0 <= c < |s.cookies| ==>
           && (s.cookies[c].place == InBox <==> c in s.box)
           && Owed(s.procs, true, c) == (if s.cookies[c].place == InTodo then 1 else 0)
  {
    var s := After(kind, n, acts).value;
    forall c | 0 <= c < |s.cookies|
      ensures s.cookies[c].place == InBox <==> c in s.box
      ensures Owed(s.procs, true, c) == (if s.cookies[c].place == InTodo then 1 else 0)
    {
      assert CookieInv(kind, n, s, c);
    }
  }

  // ---------- progress ----------

  /** A step other than a spurious wake-up or the housekeeping of a finished cookie. */
  predicate Effective(s: State, a: Action) {
    match a
    case Wake(k) => k < |s.procs| && s.procs[k].phase == Signalled
    case Reclaim(_) => false
    case _ => true
  }

  ghost predicate Finished(n: nat, s: State) {
    |s.order| == n && forall k :: 0 <= k < |s.procs| ==> s.procs[k].phase == Left
  }

  lemma MissingRank(order: seq<nat>, n: nat) returns (r: nat)
    requires NoDup(order) && |order| < n
    ensures r < n && r !in order
  {
    if forall q: nat :: q < n ==> q in order {
      SetOfSeq(order);
      var here := set y | y in order;
      assert Below(n) <= here;
      if Below(n) != here { SubsetSmaller(Below(n), here); }
      assert false;
    }
    r :| r < n && r !in order;
  }

  /** An unjoined rank can always enter, so no arrival order wedges the slot. */
  lemma JoinEnabled(kind: Kind, n: nat, s: State, r: nat)
    requires Inv(kind, n, s) && WellFormed(n, s) && r < n && r !in s.order && |s.order| < n
    ensures Enabled(kind, n, s, Join(r))
  {
    var now := s.order + [r];
    if |now| == n {
      forall q | 0 <= q < n ensures q in now { Pigeonhole(now, n, q); }
    }
  }

  lemma SomeStep(kind: Kind, n: nat, s: State) returns (a: Action)
    requires Inv(kind, n, s) && WellFormed(n, s) && !Finished(n, s)
    ensures Enabled(kind, n, s, a) && Effective(s, a)
  {
    if |s.order| < n {
      var r := MissingRank(s.order, n);
      JoinEnabled(kind, n, s, r);
      return Join(r);
    }
    if k :| 0 <= k < |s.procs| && s.procs[k].script != [] {
      return if s.procs[k].script[0].Move? then Relink(k) else if s.procs[k].copied then Notify(k) else Copy(k);
    }
    var k :| 0 <= k < |s.procs| && s.procs[k].phase != Left;
    assert ProcInv(s, k) && CookieInv(kind, n, s, k);
    NoScriptsNothingOwed(s.procs, false, k);
    a := if s.procs[k].phase == Serving then Wait(k) else if s.procs[k].phase == Returned then Leave(k) else Wake(k);
  }

  /** No reachable state is stuck: until everyone has left, some effective step is enabled. */
  lemma {:induction false} NoDeadlock(kind: Kind, n: nat, acts: seq<Action>) returns (a: Action)
    requires Sizes(kind, n) && After(kind, n, acts).Some?
    requires !Finished(n, After(kind, n, acts).value)
    ensures Enabled(kind, n, After(kind, n, acts).value, a) && Effective(After(kind, n, acts).value, a)
  {
    a := SomeStep(kind, n, After(kind, n, acts).value);
  }

  ghost function Work(p: Proc): int {
    2 * |p.script| - (if p.copied then 1 else 0) +
    match p.phase case Serving => 4 case Blocked => 3 case Signalled => 2 case Returned => 1 case Left => 0
  }

  ghost function TotalWork(procs: seq<Proc>): int {
    if procs == [] then 0 else TotalWork(procs[..|procs| - 1]) + Work(procs[|procs| - 1])
  }

  lemma {:induction false} WorkUpdate(procs: seq<Proc>, k: nat, p: Proc)
    requires k < |procs|
    ensures TotalWork(procs[k := p]) == TotalWork(procs) - Work(procs[k]) + Work(p)
  {
    var m := |procs| - 1;
    if k == m {
      assert procs[k := p][..m] == procs[..m];
    } else {
      WorkUpdate(procs[..m], k, p);
      assert procs[k := p][..m] == procs[..m][k := p];
    }
  }

  lemma WorkAppend(procs: seq<Proc>, p: Proc)
    ensures TotalWork(procs + [p]) == TotalWork(procs) + Work(p)
  {
    assert (procs + [p])[..|procs|] == procs;
  }

  lemma NotifyWork(s: State, c: nat)
    requires c < |s.cookies| == |s.procs|
    ensures TotalWork(NotifyDone(s, c).procs) <= TotalWork(s.procs)
  {
    WorkUpdate(s.procs, c, s.procs[c].(phase := Signalled));
  }

  /** The most effective steps one rank can cause: serving up to n cookies, waiting and leaving. */
  function PerRank(n: nat): nat { 6 * n + 5 }

  ghost function Budget(n: nat, unjoined: nat): nat {
    if unjoined == 0 then 0 else PerRank(n) + Budget(n, unjoined - 1)
  }

  lemma {:induction false} BudgetIsProduct(n: nat, u: nat)
    ensures Budget(n, u) == u * PerRank(n)
  {
    if u > 0 {
      BudgetIsProduct(n, u - 1);
      assert u * PerRank(n) == (u - 1) * PerRank(n) + PerRank(n);
    }
  }

  lemma BudgetOf(n: nat)
    ensures Budget(n, n) == n * (6 * n + 5)
  {
    BudgetIsProduct(n, n);
  }

  ghost function Potential(n: nat, s: State): int
    requires |s.order| <= n
  {
    Budget(n, n - |s.order|) + TotalWork(s.procs)
  }

  lemma JoinWork(s: State, r: nat, p: Plan)
    requires |s.cookies| == |s.order| == |s.procs|
    requires p.touched.Some? ==> p.touched.value < |s.order|
    ensures |ApplyPlan(s, r, p).order| == |s.order| + 1
    ensures TotalWork(ApplyPlan(s, r, p).procs) <= TotalWork(s.procs) + 2 * |p.script| + 4
  {
    WorkAppend(Touched(s, p).procs, Proc(p.script, false, p.handle, Serving));
    if p.touched.Some? { NotifyWork(s, p.touched.value); }
  }

  lemma PlanLength(kind: Kind, n: nat, s: State, r: nat)
    requires Inv(kind, n, s) && WellFormed(n, s) && Enabled(kind, n, s, Join(r))
    ensures |PlanFor(kind, n, s.order, s.box, r).script| <= 3 * n
  {
    PlanSound(kind, n, s.order, r);
  }

  lemma JoinDrains(kind: Kind, n: nat, s: State, r: nat)
    requires Inv(kind, n, s) && WellFormed(n, s) && Enabled(kind, n, s, Join(r))
    ensures |Next(kind, n, s, Join(r)).order| <= n
    ensures Potential(n, Next(kind, n, s, Join(r))) < Potential(n, s)
  {
    PlanLength(kind, n, s, r);
    JoinWork(s, r, PlanFor(kind, n, s.order, s.box, r));
  }

  lemma NotifyDrains(kind: Kind, n: nat, s: State, k: nat)
    requires Inv(kind, n, s) && WellFormed(n, s) && Enabled(kind, n, s, Notify(k))
    ensures TotalWork(Next(kind, n, s, Notify(k)).procs) < TotalWork(s.procs)
  {
    var rest := s.procs[k].(script := s.procs[k].script[1..], copied := false);
    WorkUpdate(s.procs, k, rest);
    NotifyWork(SetProc(s, k, rest), s.procs[k].script[0].cookie);
  }

  lemma OwnStepDrains(kind: Kind, n: nat, s: State, a: Action)
    requires Inv(kind, n, s) && WellFormed(n, s) && Enabled(kind, n, s, a)
    requires !a.Join? && !a.Notify? && !a.Reclaim?
    ensures TotalWork(Next(kind, n, s, a).procs) + (if Effective(s, a) then 1 else 0) <= TotalWork(s.procs)
  {
    var t := Next(kind, n, s, a);
    assert ProcInv(s, a.pos);
    WorkUpdate(s.procs, a.pos, t.procs[a.pos]);
  }

  lemma StepDrains(kind: Kind, n: nat, s: State, a: Action)
    requires Inv(kind, n, s) && WellFormed(n, s) && Enabled(kind, n, s, a)
    ensures |Next(kind, n, s, a).order| <= n
    ensures Potential(n, Next(kind, n, s, a)) + (if Effective(s, a) then 1 else 0) <= Potential(n, s)
  {
    match a
    case Join(r) => JoinDrains(kind, n, s, r);
    case Reclaim(_) =>
    case Notify(k) => NotifyDrains(kind, n, s, k);
    case _ => OwnStepDrains(kind, n, s, a);
  }

  lemma {:induction false} WorkNonNegative(kind: Kind, n: nat, s: State, m: nat)
    requires Inv(kind, n, s) && m <= |s.procs|
    ensures TotalWork(s.procs[..m]) >= 0
  {
    if m > 0 {
      WorkNonNegative(kind, n, s, m - 1);
      assert ProcInv(s, m - 1);
      assert s.procs[..m][..m - 1] == s.procs[..m - 1];
    }
  }

  lemma PotentialBounded(kind: Kind, n: nat, s: State)
    requires Inv(kind, n, s)
    ensures Potential(n, s) >= 0
  {
    WorkNonNegative(kind, n, s, |s.procs|);
    assert s.procs[..|s.procs|] == s.procs;
  }

  /** Effective steps taken along a run. */
  ghost function Effort(kind: Kind, n: nat, acts: seq<Action>): nat
    requires Sizes(kind, n)
  {
    if acts == [] then 0 else
    var prev := After(kind, n, acts[..|acts| - 1]);
    Effort(kind, n, acts[..|acts| - 1]) + (if prev.Some? && Effective(prev.value, acts[|acts| - 1]) then 1 else 0)
  }

  lemma {:induction false} EffortDrains(kind: Kind, n: nat, acts: seq<Action>)
    requires Sizes(kind, n) && After(kind, n, acts).Some?
    ensures Effort(kind, n, acts) + Potential(n, After(kind, n, acts).value) <= Budget(n, n)
  {
    if acts != [] {
      var init := acts[..|acts| - 1];
      EffortDrains(kind, n, init);
      StepDrains(kind, n, After(kind, n, init).value, acts[|acts| - 1]);
    }
  }

  /** Every run takes boundedly many effective steps; with NoDeadlock, every collective completes. */
  lemma {:induction false} RunsAreBounded(kind: Kind, n: nat, acts: seq<Action>)
    requires Sizes(kind, n) && After(kind, n, acts).Some?
    ensures Effort(kind, n, acts) <= n * (6 * n + 5)
  {
    EffortDrains(kind, n, acts);
    PotentialBounded(kind, n, After(kind, n, acts).value);
    BudgetOf(n);
  }
}
