/** The cookie's counters and its source rank are 16-bit fields: how many ranks they allow. */
module CounterFields {
  import opened Basics
  import opened Ledger
  import opened LedgerRuns
  import opened LedgerTheorems
  import opened LedgerProgress
  import Completion
  import Matching

  predicate Fits(x: int) { Matching.Int16(x) == x }

  /** No count exceeds the number of ranks. */
  ghost predicate Small(n: nat, s: State) {
    forall c :: 0 <= c < |s.cookies| ==> s.cookies[c].busy <= n
  }

  lemma PlanSmall(kind: Kind, n: nat, s: State, r: nat)
    requires WellFormed(n, s) && Enabled(kind, n, s, Join(r))
    ensures PlanFor(kind, n, s.order, s.box, r).busy <= n
  {
  }

  lemma JoinSmall(n: nat, s: State, r: nat, p: Plan)
    requires |s.cookies| == |s.order| == |s.procs| && (p.touched.Some? ==> p.touched.value < |s.order|)
    requires Small(n, s) && p.busy <= n
    ensures Small(n, ApplyPlan(s, r, p))
  {
    var t := ApplyPlan(s, r, p);
    forall c | 0 <= c < |t.cookies| ensures t.cookies[c].busy <= n {
      if c < |s.cookies| { JoinFrame(s, r, p, c); }
    }
  }

  lemma OtherSmall(kind: Kind, n: nat, s: State, a: Action)
    requires WellFormed(n, s) && Enabled(kind, n, s, a) && !a.Join? && Small(n, s)
    ensures Small(n, Next(kind, n, s, a))
  {
  }

  lemma StepSmall(kind: Kind, n: nat, s: State, a: Action)
    requires WellFormed(n, s) && Enabled(kind, n, s, a) && Small(n, s)
    ensures Small(n, Next(kind, n, s, a))
  {
    if a.Join? {
      PlanSmall(kind, n, s, a.rank);
      JoinSmall(n, s, a.rank, PlanFor(kind, n, s.order, s.box, a.rank));
    } else {
      OtherSmall(kind, n, s, a);
    }
  }

  lemma {:induction false} AlwaysSmall(kind: Kind, n: nat, acts: seq<Action>)
    requires Sizes(kind, n) && After(kind, n, acts).Some?
    ensures Small(n, After(kind, n, acts).value)
  {
    if acts != [] {
      AlwaysSmall(kind, n, acts[..|acts| - 1]);
      StepSmall(kind, n, After(kind, n, acts[..|acts| - 1]).value, acts[|acts| - 1]);
    }
  }

  lemma {:induction false} HandlesAtMost(procs: seq<Proc>, c: nat)
    ensures LiveHandles(procs, c) <= |procs|
  {
    if procs != [] { HandlesAtMost(procs[..|procs| - 1], c); }
  }

  /** Every count, and every rank's number, keeps its value in its field. */
  ghost predicate AllFit(kind: Kind, n: nat, acts: seq<Action>) {
    Sizes(kind, n) && After(kind, n, acts).Some? ==>
      var s := After(kind, n, acts).value;
      && (forall c :: 0 <= c < |s.cookies| ==> Fits(s.cookies[c].busy) && Fits(s.cookies[c].used))
      && (forall i :: 0 <= i < |s.order| ==> Fits(s.order[i]))
  }

  lemma SmallFits(x: int)
    requires 0 <= x <= 0x7fff
    ensures Fits(x)
  {
  }

  lemma CountsOf(kind: Kind, n: nat, acts: seq<Action>, c: nat)
    requires Sizes(kind, n) && After(kind, n, acts).Some? && c < |After(kind, n, acts).value.cookies|
    ensures var ck := After(kind, n, acts).value.cookies[c]; 0 <= ck.busy <= n && 0 <= ck.used <= n
  {
    AlwaysSmall(kind, n, acts);
    TransferLedger(kind, n, acts, c);
    HandlesAtMost(After(kind, n, acts).value.procs, c);
    assert CookieInv(kind, n, After(kind, n, acts).value, c);
  }

  lemma {:induction false} FewRanksFit(kind: Kind, n: nat, acts: seq<Action>)
    requires n <= 0x7fff
    ensures AllFit(kind, n, acts)
  {
    if Sizes(kind, n) && After(kind, n, acts).Some? {
      var s := After(kind, n, acts).value;
      forall c | 0 <= c < |s.cookies| ensures Fits(s.cookies[c].busy) && Fits(s.cookies[c].used) {
        CountsOf(kind, n, acts, c);
        SmallFits(s.cookies[c].busy);
        SmallFits(s.cookies[c].used);
      }
      forall i | 0 <= i < |s.order| ensures Fits(s.order[i]) { SmallFits(s.order[i]); }
    }
  }

  /** The first rank of an allgather is owed a transfer for every rank. */
  lemma FirstIsOwedAll(n: nat)
    requires n >= 2
    ensures |ApplyPlan(INIT, 0, AllgatherPlan(n, 0, [])).cookies| == 1
    ensures ApplyPlan(INIT, 0, AllgatherPlan(n, 0, [])).cookies[0].busy == n
  {
  }

  lemma FirstOfMany(n: nat)
    requires n >= 2
    ensures After(Allgather, n, [] + [Join(0)]).Some?
    ensures var s := After(Allgather, n, [] + [Join(0)]).value; |s.cookies| == 1 && s.cookies[0].busy == n
  {
    assert After(Allgather, n, []) == Some(INIT);
    JoinEnabled(Allgather, n, INIT, 0);
    Completion.Extend(Allgather, n, [], Join(0));
    FirstIsOwedAll(n);
  }

  /** In every run of every collective the 16-bit fields hold what is stored in them exactly for up to 32767 ranks. */
  lemma {:induction false} FieldsFitExactly(n: nat)
    requires n >= 2
    ensures (forall kind: Kind, acts: seq<Action> :: AllFit(kind, n, acts)) <==> n <= 0x7fff
  {
    if n <= 0x7fff {
      forall kind: Kind, acts: seq<Action> ensures AllFit(kind, n, acts) { FewRanksFit(kind, n, acts); }
    } else {
      FirstOfMany(n);
      assert !Fits(After(Allgather, n, [] + [Join(0)]).value.cookies[0].busy);
      assert !AllFit(Allgather, n, [] + [Join(0)]);
    }
  }
}
