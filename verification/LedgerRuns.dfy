/** What every step of a collective keeps, and what therefore holds in every reachable state. */
module LedgerRuns {
  import opened Basics
  import opened Ledger
  import opened LedgerPlans

  ghost predicate Arrivals(kind: Kind, n: nat, order: seq<nat>) {
    && Sizes(kind, n) && |order| <= n && NoDup(order)
    && (forall i :: 0 <= i < |order| ==> order[i] < n)
  }

  /** `busy_` counts the transfers still to be made; `used_` counts the handles not yet left. */
  ghost predicate CookieInv(kind: Kind, n: nat, s: State, c: nat)
    requires c < |s.cookies| == |s.procs| && |s.order| <= n
  {
    var ck := s.cookies[c];
    && (ck.place == Nowhere <==> s.procs[c].handle != c)
    && (ck.place == InBox <==> c in s.box)
    && Owed(s.procs, true, c) == (if ck.place == InTodo then 1 else 0)
    && (ck.place == Nowhere ==> ck.busy == 0 && Owed(s.procs, false, c) == 0)
    && (ck.place != Nowhere ==> ck.busy == Owed(s.procs, false, c) + Future(kind, n, s.order, c))
    && ck.used == LiveHandles(s.procs, c)
    && (ck.place == Reclaimed ==> ck.used == 0)
  }

  /** An owner sleeps only while transfers are owed to its cookie, and returns only when none is. */
  ghost predicate ProcInv(s: State, k: nat)
    requires k < |s.procs| == |s.cookies|
  {
    var p := s.procs[k];
    && p.handle < |s.procs| && s.procs[p.handle].handle == p.handle
    && (p.copied ==> p.script != [] && !p.script[0].Move?)
    && (forall i :: 0 <= i < |p.script| ==> p.script[i].cookie < |s.procs|)
    && (p.phase != Serving ==> p.script == [])
    && (p.phase == Blocked ==> p.handle == k && s.cookies[k].busy > 0)
    && (p.phase == Signalled ==> p.handle == k && s.cookies[k].busy == 0)
    && (p.handle == k && (p.phase == Returned || p.phase == Left) ==> s.cookies[k].busy == 0)
  }

  ghost predicate Inv(kind: Kind, n: nat, s: State) {
    && Arrivals(kind, n, s.order)
    && |s.cookies| == |s.order| == |s.procs|
    && s.box == BoxOf(kind, n, s.order)
    && (forall c :: 0 <= c < |s.cookies| ==> CookieInv(kind, n, s, c))
    && (forall k :: 0 <= k < |s.procs| ==> ProcInv(s, k))
  }

  lemma InvWellFormed(kind: Kind, n: nat, s: State)
    requires Inv(kind, n, s)
    ensures WellFormed(n, s)
  {
    forall k | 0 <= k < |s.procs| ensures s.procs[k].handle < |s.procs| { assert ProcInv(s, k); }
    forall k | 0 <= k < |s.procs| && s.procs[k].script != [] ensures s.procs[k].script[0].cookie < |s.procs| {
      assert ProcInv(s, k);
    }
  }

  /** The head of a rank's script is one of the things it owes. */
  lemma HeadOwed(s: State, k: nat, c: nat)
    requires k < |s.procs| && s.procs[k].script != []
    ensures var p := s.procs[k]; var rest := p.(script := p.script[1..], copied := false);
      && Owed(s.procs[k := rest], true, c) == Owed(s.procs, true, c) - Weight(p.script[0], true, c)
      && Owed(s.procs[k := rest], false, c) == Owed(s.procs, false, c) - Weight(p.script[0], false, c)
      && LiveHandles(s.procs[k := rest], c) == LiveHandles(s.procs, c)
  {
    var p := s.procs[k];
    var rest := p.(script := p.script[1..], copied := false);
    OwedUpdate(s.procs, k, rest, true, c);
    OwedUpdate(s.procs, k, rest, false, c);
    LiveHandlesUpdate(s.procs, k, rest, c);
  }

  /** Changing only a rank's phase, other than to or from Left, changes no count. */
  lemma PhaseFrame(procs: seq<Proc>, k: nat, p: Proc, c: nat)
    requires k < |procs| && p.script == procs[k].script && p.handle == procs[k].handle
    ensures Owed(procs[k := p], true, c) == Owed(procs, true, c)
    ensures Owed(procs[k := p], false, c) == Owed(procs, false, c)
    ensures LiveHandles(procs[k := p], c) == LiveHandles(procs, c) - Holds(procs[k], c) + Holds(p, c)
  {
    OwedUpdate(procs, k, p, true, c);
    OwedUpdate(procs, k, p, false, c);
    LiveHandlesUpdate(procs, k, p, c);
  }

  lemma RelinkInv(kind: Kind, n: nat, s: State, k: nat)
    requires Inv(kind, n, s) && WellFormed(n, s) && Enabled(kind, n, s, Relink(k))
    ensures Inv(kind, n, Next(kind, n, s, Relink(k)))
  {
    var t := Next(kind, n, s, Relink(k));
    var p := s.procs[k];
    assert ProcInv(s, k);
    assert t.procs == s.procs[k := p.(script := p.script[1..], copied := false)];
    forall c | 0 <= c < |t.cookies| ensures CookieInv(kind, n, t, c) {
      assert CookieInv(kind, n, s, c);
      HeadOwed(s, k, c);
    }
    forall j | 0 <= j < |t.procs| ensures ProcInv(t, j) {
      assert ProcInv(s, j);
      assert ProcInv(s, s.procs[j].handle);
    }
  }

  lemma CopyInv(kind: Kind, n: nat, s: State, k: nat)
    requires Inv(kind, n, s) && WellFormed(n, s) && Enabled(kind, n, s, Copy(k))
    ensures Inv(kind, n, Next(kind, n, s, Copy(k)))
  {
    var t := Next(kind, n, s, Copy(k));
    forall c | 0 <= c < |t.cookies| ensures CookieInv(kind, n, t, c) {
      assert CookieInv(kind, n, s, c);
      PhaseFrame(s.procs, k, t.procs[k], c);
    }
    forall j | 0 <= j < |t.procs| ensures ProcInv(t, j) {
      assert ProcInv(s, j);
      assert ProcInv(s, s.procs[j].handle);
    }
  }

  /** A notification changes one count, and at most the phase of that cookie's owner. */
  lemma NotifyDoneFrame(s: State, d: nat, c: nat)
    requires d < |s.cookies| == |s.procs| && c < |s.cookies|
    ensures var t := NotifyDone(s, d);
      && |t.cookies| == |t.procs| == |s.procs| && t.order == s.order && t.box == s.box
      && t.cookies[c] == s.cookies[c].(busy := s.cookies[c].busy - (if c == d then 1 else 0))
      && t.procs[c] == s.procs[c].(phase := t.procs[c].phase)
      && (t.procs[c].phase != s.procs[c].phase ==>
            && c == d && s.procs[c].phase == Blocked && s.procs[c].handle == c
            && t.procs[c].phase == Signalled && t.cookies[c].busy == 0)
      && (c == d && s.procs[c].phase == Blocked && s.procs[c].handle == c && t.procs[c].phase == Blocked ==>
            t.cookies[c].busy != 0)
      && Owed(t.procs, true, c) == Owed(s.procs, true, c)
      && Owed(t.procs, false, c) == Owed(s.procs, false, c)
      && LiveHandles(t.procs, c) == LiveHandles(s.procs, c)
  {
    PhaseFrame(s.procs, d, NotifyDone(s, d).procs[d], c);
  }

  lemma NotifyCookieInv(kind: Kind, n: nat, s: State, k: nat, c: nat)
    requires Inv(kind, n, s) && WellFormed(n, s) && Enabled(kind, n, s, Notify(k)) && c < |s.cookies|
    ensures CookieInv(kind, n, Next(kind, n, s, Notify(k)), c)
  {
    var p := s.procs[k];
    var mid := SetProc(s, k, p.(script := p.script[1..], copied := false));
    assert ProcInv(s, k);
    assert CookieInv(kind, n, s, c);
    HeadOwed(s, k, c);
    NotifyDoneFrame(mid, p.script[0].cookie, c);
  }

  /** The state in which position k's reported transfer is off its script. */
  function Reported(s: State, k: nat): State
    requires k < |s.procs| && s.procs[k].script != []
  {
    SetProc(s, k, s.procs[k].(script := s.procs[k].script[1..], copied := false))
  }

  lemma ReportedProcInv(s: State, k: nat, j: nat)
    requires k < |s.procs| == |s.cookies| && s.procs[k].script != [] && j < |s.procs|
    requires ProcInv(s, k) && ProcInv(s, j)
    ensures ProcInv(Reported(s, k), j)
  {
  }

  lemma DoneProcInv(s: State, d: nat, j: nat)
    requires d < |s.procs| == |s.cookies| && s.cookies[d].busy > 0
    requires j < |s.procs| && ProcInv(s, j)
    ensures |NotifyDone(s, d).procs| == |s.procs| && ProcInv(NotifyDone(s, d), j)
  {
    NotifyDoneFrame(s, d, j);
    NotifyDoneFrame(s, d, s.procs[j].handle);
  }

  lemma NotifyProcInv(kind: Kind, n: nat, s: State, k: nat, j: nat)
    requires WellFormed(n, s) && |s.order| <= n && Enabled(kind, n, s, Notify(k)) && j < |s.procs|
    requires ProcInv(s, k) && ProcInv(s, j) && CookieInv(kind, n, s, s.procs[k].script[0].cookie)
    ensures ProcInv(Next(kind, n, s, Notify(k)), j)
  {
    HeadOwed(s, k, s.procs[k].script[0].cookie);
    ReportedProcInv(s, k, j);
    DoneProcInv(Reported(s, k), s.procs[k].script[0].cookie, j);
  }

  lemma NotifyInv(kind: Kind, n: nat, s: State, k: nat)
    requires Inv(kind, n, s) && WellFormed(n, s) && Enabled(kind, n, s, Notify(k))
    ensures Inv(kind, n, Next(kind, n, s, Notify(k)))
  {
    var t := Next(kind, n, s, Notify(k));
    forall c | 0 <= c < |t.cookies| ensures CookieInv(kind, n, t, c) {
      NotifyCookieInv(kind, n, s, k, c);
    }
    forall j | 0 <= j < |t.procs| ensures ProcInv(t, j) {
      assert ProcInv(s, k) && ProcInv(s, j);
      assert CookieInv(kind, n, s, s.procs[k].script[0].cookie);
      NotifyProcInv(kind, n, s, k, j);
    }
  }

  lemma WaitProcInv(kind: Kind, n: nat, s: State, a: Action, j: nat)
    requires (a.Wait? || a.Wake?) && WellFormed(n, s) && |s.order| <= n && Enabled(kind, n, s, a) && j < |s.procs|
    requires ProcInv(s, j) && ProcInv(s, s.procs[j].handle) && CookieInv(kind, n, s, a.pos)
    ensures ProcInv(Next(kind, n, s, a), j)
  {
  }

  lemma WaitInv(kind: Kind, n: nat, s: State, a: Action)
    requires a.Wait? || a.Wake?
    requires Inv(kind, n, s) && WellFormed(n, s) && Enabled(kind, n, s, a)
    ensures Inv(kind, n, Next(kind, n, s, a))
  {
    var t := Next(kind, n, s, a);
    forall c | 0 <= c < |t.cookies| ensures CookieInv(kind, n, t, c) {
      assert CookieInv(kind, n, s, c);
      PhaseFrame(s.procs, a.pos, t.procs[a.pos], c);
    }
    forall j | 0 <= j < |t.procs| ensures ProcInv(t, j) {
      assert ProcInv(s, j) && CookieInv(kind, n, s, a.pos);
      assert ProcInv(s, s.procs[j].handle);
      WaitProcInv(kind, n, s, a, j);
    }
  }

  lemma LeaveCookieInv(kind: Kind, n: nat, s: State, k: nat, c: nat)
    requires WellFormed(n, s) && |s.order| <= n && Enabled(kind, n, s, Leave(k)) && c < |s.cookies|
    requires ProcInv(s, k) && CookieInv(kind, n, s, c)
    ensures CookieInv(kind, n, Next(kind, n, s, Leave(k)), c)
  {
    var p := Next(kind, n, s, Leave(k)).procs[k];
    PhaseFrame(s.procs, k, p, c);
    LiveHandlesUpdate(s.procs, k, p, c);
  }

  lemma LeaveInv(kind: Kind, n: nat, s: State, k: nat)
    requires Inv(kind, n, s) && WellFormed(n, s) && Enabled(kind, n, s, Leave(k))
    ensures Inv(kind, n, Next(kind, n, s, Leave(k)))
  {
    var t := Next(kind, n, s, Leave(k));
    forall c | 0 <= c < |t.cookies| ensures CookieInv(kind, n, t, c) {
      assert ProcInv(s, k) && CookieInv(kind, n, s, c);
      LeaveCookieInv(kind, n, s, k, c);
    }
    forall j | 0 <= j < |t.procs| ensures ProcInv(t, j) {
      assert ProcInv(s, j);
      assert ProcInv(s, s.procs[j].handle);
    }
  }

  lemma ReclaimInv(kind: Kind, n: nat, s: State, d: nat)
    requires Inv(kind, n, s) && WellFormed(n, s) && Enabled(kind, n, s, Reclaim(d))
    ensures Inv(kind, n, Next(kind, n, s, Reclaim(d)))
  {
    var t := Next(kind, n, s, Reclaim(d));
    forall c | 0 <= c < |t.cookies| ensures CookieInv(kind, n, t, c) {
      assert CookieInv(kind, n, s, c);
    }
    forall j | 0 <= j < |t.procs| ensures ProcInv(t, j) {
      assert ProcInv(s, j);
    }
  }

  // ---------- joining ----------

  lemma OwedAppend(procs: seq<Proc>, p: Proc, move: bool, c: nat)
    ensures Owed(procs + [p], move, c) == Owed(procs, move, c) + Tally(p.script, move, c)
    ensures LiveHandles(procs + [p], c) == LiveHandles(procs, c) + Holds(p, c)
  {
    assert (procs + [p])[..|procs|] == procs;
  }

  /** Nothing is owed on a cookie that does not exist yet. */
  lemma {:induction false} NothingOwed(procs: seq<Proc>, n: nat, c: nat)
    requires c >= n
    requires forall k, i :: 0 <= k < |procs| && 0 <= i < |procs[k].script| ==> procs[k].script[i].cookie < n
    requires forall k :: 0 <= k < |procs| ==> procs[k].handle < n
    ensures Owed(procs, true, c) == 0 && Owed(procs, false, c) == 0 && LiveHandles(procs, c) == 0
  {
    if procs != [] {
      var m := |procs| - 1;
      NothingOwed(procs[..m], n, c);
      NoTally(procs[m].script, n, c);
    }
  }

  lemma {:induction false} NoTally(script: seq<Item>, n: nat, c: nat)
    requires c >= n && forall i :: 0 <= i < |script| ==> script[i].cookie < n
    ensures Tally(script, true, c) == 0 && Tally(script, false, c) == 0
  {
    if script != [] { NoTally(script[1..], n, c); }
  }

  lemma {:induction false} TallyPositive(script: seq<Item>, i: nat)
    requires i < |script|
    ensures Tally(script, script[i].Move?, script[i].cookie) > 0
  {
    if i > 0 { TallyPositive(script[1..], i - 1); }
  }

  lemma JoinArrivals(kind: Kind, n: nat, order: seq<nat>, r: nat)
    requires Arrivals(kind, n, order) && |order| < n && r < n && r !in order
    ensures Arrivals(kind, n, order + [r])
  {
  }

  lemma TouchedFrame(s: State, p: Plan, c: nat)
    requires |s.cookies| == |s.procs| && c < |s.procs|
    requires p.touched.Some? ==> p.touched.value < |s.procs|
    ensures var t := Touched(s, p);
      && |t.cookies| == |t.procs| == |s.procs|
      && t.cookies[c] == s.cookies[c].(busy := s.cookies[c].busy - (if p.touched == Some(c) then 1 else 0))
      && t.procs[c] == s.procs[c].(phase := t.procs[c].phase)
      && (t.procs[c].phase != s.procs[c].phase ==>
            && p.touched == Some(c) && s.procs[c].phase == Blocked && s.procs[c].handle == c
            && t.procs[c].phase == Signalled && t.cookies[c].busy == 0)
      && (p.touched == Some(c) && s.procs[c].handle == c && t.procs[c].phase == Blocked ==> t.cookies[c].busy != 0)
      && Owed(t.procs, true, c) == Owed(s.procs, true, c)
      && Owed(t.procs, false, c) == Owed(s.procs, false, c)
      && LiveHandles(t.procs, c) == LiveHandles(s.procs, c)
  {
    if p.touched.Some? { NotifyDoneFrame(s, p.touched.value, c); }
  }

  /** What a join section leaves of an older cookie and of the counts on it. */
  lemma JoinFrame(s: State, r: nat, p: Plan, c: nat)
    requires |s.cookies| == |s.order| == |s.procs| && c < |s.order|
    requires p.touched.Some? ==> p.touched.value < |s.procs|
    ensures var t := ApplyPlan(s, r, p); var left := s.cookies[c].busy - (if p.touched == Some(c) then 1 else 0);
      && |t.cookies| == |t.procs| == |t.order| == |s.order| + 1
      && t.cookies[c] == Placed(Joined(s.cookies[c].(busy := left), c, p), c, p)
      && t.procs[c] == Touched(s, p).procs[c]
      && t.procs[c].handle == s.procs[c].handle
      && Owed(t.procs, true, c) == Owed(s.procs, true, c) + Tally(p.script, true, c)
      && Owed(t.procs, false, c) == Owed(s.procs, false, c) + Tally(p.script, false, c)
      && LiveHandles(t.procs, c) == LiveHandles(s.procs, c) + (if c == p.handle then 1 else 0)
  {
    var newcomer := Proc(p.script, false, p.handle, Serving);
    TouchedFrame(s, p, c);
    OwedAppend(Touched(s, p).procs, newcomer, true, c);
    OwedAppend(Touched(s, p).procs, newcomer, false, c);
  }

  ghost predicate CanJoin(kind: Kind, n: nat, s: State, r: nat, p: Plan) {
    && Inv(kind, n, s) && |s.order| < n && r < n && r !in s.order
    && Sound(kind, n, s.order, r, p)
    && (p.touched.Some? ==> p.touched.value < |s.order|)
  }

  lemma JoinOldCookie(kind: Kind, n: nat, s: State, r: nat, p: Plan, c: nat)
    requires CanJoin(kind, n, s, r, p) && c < |s.order|
    ensures CookieInv(kind, n, ApplyPlan(s, r, p), c)
  {
    assert CookieInv(kind, n, s, c);
    assert SoundAt(kind, n, s.order, r, p, c);
    JoinFrame(s, r, p, c);
  }

  lemma NothingOwedYet(kind: Kind, n: nat, s: State, p: Plan)
    requires Inv(kind, n, s) && (p.touched.Some? ==> p.touched.value < |s.order|)
    ensures var mid := Touched(s, p); var me := |s.order|;
      && |mid.procs| == |s.procs|
      && Owed(mid.procs, true, me) == 0 && Owed(mid.procs, false, me) == 0 && LiveHandles(mid.procs, me) == 0
  {
    var mid := Touched(s, p);
    forall k | 0 <= k < |mid.procs|
      ensures mid.procs[k].handle < |s.order|
      ensures forall i :: 0 <= i < |mid.procs[k].script| ==> mid.procs[k].script[i].cookie < |s.order|
    {
      assert ProcInv(s, k);
      TouchedFrame(s, p, k);
    }
    NothingOwed(mid.procs, |s.order|, |s.order|);
  }

  lemma JoinNewCookie(kind: Kind, n: nat, s: State, r: nat, p: Plan)
    requires CanJoin(kind, n, s, r, p)
    ensures CookieInv(kind, n, ApplyPlan(s, r, p), |s.order|)
  {
    var me := |s.order|;
    var newcomer := Proc(p.script, false, p.handle, Serving);
    assert SoundAt(kind, n, s.order, r, p, me);
    NothingOwedYet(kind, n, s, p);
    OwedAppend(Touched(s, p).procs, newcomer, true, me);
    OwedAppend(Touched(s, p).procs, newcomer, false, me);
  }

  lemma JoinOldProc(kind: Kind, n: nat, s: State, r: nat, p: Plan, j: nat)
    requires CanJoin(kind, n, s, r, p) && j < |s.order|
    ensures |ApplyPlan(s, r, p).procs| == |s.order| + 1 == |ApplyPlan(s, r, p).cookies|
    ensures ProcInv(ApplyPlan(s, r, p), j)
  {
    var h := s.procs[j].handle;
    assert ProcInv(s, j) && CookieInv(kind, n, s, j);
    JoinFrame(s, r, p, j);
    JoinFrame(s, r, p, h);
    TouchedFrame(s, p, j);
    assert SoundAt(kind, n, s.order, r, p, j);
  }

  lemma JoinNewProc(kind: Kind, n: nat, s: State, r: nat, p: Plan)
    requires CanJoin(kind, n, s, r, p)
    ensures |ApplyPlan(s, r, p).procs| == |s.order| + 1 == |ApplyPlan(s, r, p).cookies|
    ensures ProcInv(ApplyPlan(s, r, p), |s.order|)
  {
    var me := |s.order|;
    forall i | 0 <= i < |p.script| ensures p.script[i].cookie <= me {
      TallyPositive(p.script, i);
      assert SoundAt(kind, n, s.order, r, p, p.script[i].cookie);
      BoxHolds(kind, n, s.order, p.script[i].cookie);
    }
    if p.handle != me {
      assert CookieInv(kind, n, s, p.handle);
      JoinFrame(s, r, p, p.handle);
    }
  }

  lemma JoinInv(kind: Kind, n: nat, s: State, r: nat)
    requires Inv(kind, n, s) && WellFormed(n, s) && Enabled(kind, n, s, Join(r))
    ensures Inv(kind, n, Next(kind, n, s, Join(r)))
  {
    var p := PlanFor(kind, n, s.order, s.box, r);
    PlanSound(kind, n, s.order, r);
    var t := ApplyPlan(s, r, p);
    forall c | 0 <= c < |t.cookies| ensures CookieInv(kind, n, t, c) {
      if c == |s.order| { JoinNewCookie(kind, n, s, r, p); } else { JoinOldCookie(kind, n, s, r, p, c); }
    }
    forall k | 0 <= k < |t.procs| ensures ProcInv(t, k) {
      if k == |s.order| { JoinNewProc(kind, n, s, r, p); } else { JoinOldProc(kind, n, s, r, p, k); }
    }
  }

  lemma NextInv(kind: Kind, n: nat, s: State, a: Action)
    requires Inv(kind, n, s) && WellFormed(n, s) && Enabled(kind, n, s, a)
    ensures Inv(kind, n, Next(kind, n, s, a))
  {
    match a
    case Join(r) => JoinInv(kind, n, s, r);
    case Relink(k) => RelinkInv(kind, n, s, k);
    case Copy(k) => CopyInv(kind, n, s, k);
    case Notify(k) => NotifyInv(kind, n, s, k);
    case Wait(_) => WaitInv(kind, n, s, a);
    case Wake(_) => WaitInv(kind, n, s, a);
    case Leave(k) => LeaveInv(kind, n, s, k);
    case Reclaim(c) => ReclaimInv(kind, n, s, c);
  }
}
