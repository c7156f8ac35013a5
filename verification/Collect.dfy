/**
  The slot and its cookies as the program updates them: each method is one critical section or one
  unlocked step, written in the source's order and proved to be the corresponding step of the ledger.
 */
module CollectSlot {
  import opened Basics
  import opened Ledger
  import opened LedgerPlans
  import opened LedgerRuns
  import opened LedgerTheorems

  lemma NextValid(kind: Kind, n: nat, s: State, a: Action)
    requires Inv(kind, n, s) && WellFormed(n, s) && Enabled(kind, n, s, a)
    ensures Inv(kind, n, Next(kind, n, s, a)) && WellFormed(n, Next(kind, n, s, a))
  {
    NextInv(kind, n, s, a);
    InvWellFormed(kind, n, Next(kind, n, s, a));
  }

  /** The cookies once the whole box has become a private list. */
  function Spliced(cookies: seq<Cookie>, todo: seq<nat>): seq<Cookie> {
    seq(|cookies|, c requires 0 <= c < |cookies| => if c in todo then cookies[c].(place := InTodo) else cookies[c])
  }

  /** Plans that retire nothing and name existing cookies only. */
  ghost predicate Plain(s: State, p: Plan) {
    && |s.cookies| == |s.order| == |s.procs| && p.retired == [] && p.handle <= |s.order|
    && (p.touched.Some? ==> p.touched.value < |s.order|)
    && forall i :: 0 <= i < |p.todo| ==> p.todo[i] < |s.order|
  }

  /** What such a plan makes of the cookies. */
  lemma PlanCookies(s: State, r: nat, p: Plan)
    requires Plain(s, p)
    ensures var todo := Spliced(Touched(s, p).cookies, p.todo);
      ApplyPlan(s, r, p).cookies ==
      if p.handle == |s.order| then todo + [Cookie(InBox, p.busy, 1)]
      else todo[p.handle := todo[p.handle].(used := todo[p.handle].used + 1)] + [Cookie(Nowhere, 0, 0)]
  {
    assert |s.order| !in p.todo;
  }

  lemma AllreducePlanned(kind: Kind, n: nat, s: State, r: nat)
    requires WellFormed(n, s) && (kind.AllreduceChain? || kind.AllreduceInPlace?) && Enabled(kind, n, s, Join(r))
    ensures s.order != [] ==> s.box != []
    ensures var p := AllreducePlan(n, |s.order|, s.box, kind.AllreduceChain?);
      Plain(s, p) && Next(kind, n, s, Join(r)) == ApplyPlan(s, r, p)
  {
  }

  lemma NothingSpliced(cookies: seq<Cookie>)
    ensures Spliced(cookies, []) == cookies
  {
  }

  /** `err_` after these reports, in this order: the first that is not 0, else 0. */
  function FirstError(reports: seq<int>): int {
    if reports == [] then 0 else if reports[0] != 0 then reports[0] else FirstError(reports[1..])
  }

  lemma {:induction false} FirstErrorOf(reports: seq<int>)
    ensures FirstError(reports) == 0 <==> forall i :: 0 <= i < |reports| ==> reports[i] == 0
    ensures FirstError(reports) != 0 ==>
      exists i :: 0 <= i < |reports| && reports[i] == FirstError(reports) && forall j :: 0 <= j < i ==> reports[j] == 0
  {
    if reports != [] && reports[0] == 0 {
      FirstErrorOf(reports[1..]);
      assert reports == [0] + reports[1..];
      if FirstError(reports) != 0 {
        var i :| 0 <= i < |reports[1..]| && reports[1..][i] == FirstError(reports)
              && forall j :: 0 <= j < i ==> reports[1..][j] == 0;
        assert reports[i + 1] == FirstError(reports);
        forall j | 0 <= j < i + 1 ensures reports[j] == 0 { assert j > 0 ==> reports[j] == reports[1..][j - 1]; }
      }
    }
  }

  lemma {:induction false} OneMoreReport(reports: seq<int>, err: int)
    ensures FirstError(reports + [err]) == if FirstError(reports) != 0 then FirstError(reports) else err
  {
    if reports != [] {
      OneMoreReport(reports[1..], err);
      assert (reports + [err])[1..] == reports[1..] + [err];
    }
  }

  /** The reports on each cookie after a join section: a transfer under the slot lock reports success. */
  function WithSection(reports: seq<seq<int>>, touched: Option<nat>): seq<seq<int>>
    requires touched.Some? ==> touched.value < |reports|
  {
    (if touched.Some? then reports[touched.value := reports[touched.value] + [0]] else reports) + [[]]
  }

  class Collect {
    const kind: Kind
    const n: nat
    var order: seq<nat>
    var box: seq<nat>
    var cookies: seq<Cookie>
    var procs: seq<Proc>
    var errors: seq<int>       // `err_` of each cookie
    ghost var reports: seq<seq<int>>

    ghost function Abs(): State
      reads this
    {
      State(order, box, cookies, procs)
    }

    ghost predicate Valid()
      reads this
    {
      Inv(kind, n, Abs()) && WellFormed(n, Abs()) && Tallied()
    }

    /** Each cookie's `err_` is what has been reported on it. */
    ghost predicate Tallied()
      reads this
    {
      |errors| == |reports| == |cookies| && forall c :: 0 <= c < |errors| ==> errors[c] == FirstError(reports[c])
    }

    constructor (kind: Kind, n: nat)
      requires Sizes(kind, n)
      ensures Valid() && Abs() == INIT && errors == [] && this.kind == kind && this.n == n
    {
      this.kind, this.n := kind, n;
      order, box, cookies, procs, errors := [], [], [], [], [];
      reports := [];
    }

    // ---------- list and cookie primitives ----------

    /** `create_request`: a fresh cookie at the end of the box, with one handle and `busy` transfers owed. */
    method CreateRequest(r: nat, busy: int) returns (request: nat)
      modifies this`order, this`box, this`cookies, this`errors, this`reports
      ensures errors == old(errors) + [0] && reports == old(reports) + [[]]
      ensures request == |old(cookies)|
      ensures order == old(order) + [r] && box == old(box) + [request]
      ensures cookies == old(cookies) + [Cookie(InBox, busy, 1)]
    {
      request := |cookies|;
      order, box, cookies := order + [r], box + [request], cookies + [Cookie(InBox, busy, 1)];
      errors, reports := errors + [0], reports + [[]];
    }

    /** `join` on an existing cookie, by a rank that creates none. */
    method JoinRequest(r: nat, c: nat) returns (request: nat)
      requires c < |cookies|
      modifies this`order, this`cookies, this`errors, this`reports
      ensures errors == old(errors) + [0] && reports == old(reports) + [[]]
      ensures request == c && order == old(order) + [r]
      ensures cookies == old(cookies)[c := old(cookies)[c].(used := old(cookies)[c].used + 1)] + [Cookie(Nowhere, 0, 0)]
    {
      order := order + [r];
      cookies := cookies[c := cookies[c].(used := cookies[c].used + 1)] + [Cookie(Nowhere, 0, 0)];
      errors, reports := errors + [0], reports + [[]];
      request := c;
    }

    /** `todo.splice(todo.begin(), box_)`: the whole box becomes the caller's private list. */
    method SpliceAll() returns (todo: seq<nat>)
      modifies this`box, this`cookies
      ensures todo == old(box) && box == []
      ensures cookies == Spliced(old(cookies), todo)
    {
      todo := box;
      box := [];
      cookies := Spliced(cookies, todo);
    }

    method Start(request: nat, script: seq<Item>)
      modifies this`procs
      ensures procs == old(procs) + [Proc(script, false, request, Serving)]
    {
      procs := procs + [Proc(script, false, request, Serving)];
    }

    /** `notify_done` under the owner's lock: the first error reported for a cookie is the one kept. */
    method NotifyOwner(c: nat, err: int)
      requires c < |cookies| == |procs| && Tallied()
      modifies this`cookies, this`procs, this`errors, this`reports
      ensures Abs() == NotifyDone(old(Abs()), c) && Tallied()
      ensures reports == old(reports)[c := old(reports)[c] + [err]]
      ensures errors == old(errors)[c := if old(errors)[c] != 0 then old(errors)[c] else err]
    {
      OneMoreReport(reports[c], err);
      reports := reports[c := reports[c] + [err]];
      errors := errors[c := if errors[c] != 0 then errors[c] else err];
      cookies := cookies[c := cookies[c].(busy := cookies[c].busy - 1)];
      if cookies[c].busy == 0 && procs[c].phase == Blocked && procs[c].handle == c {
        procs := procs[c := procs[c].(phase := Signalled)];
      }
    }

    // ---------- join sections ----------

    /** The transfer under the slot lock is over and the plan's cookies are spliced; `before` is the state on entry. */
    ghost predicate Midway(before: State, p: Plan)
      reads this
    {
      && Plain(before, p) && Tallied()
      && order == before.order && procs == Touched(before, p).procs
      && cookies == Spliced(Touched(before, p).cookies, p.todo)
    }

    /** The section ends by creating a request of the rank's own. */
    method EndWithOwn(r: nat, busy: int, script: seq<Item>, ghost before: State, ghost p: Plan) returns (request: nat)
      requires Midway(before, p) && p.handle == |before.order| && p.busy == busy && p.script == script
      requires p.box == box + [p.handle]
      modifies this
      ensures Abs() == ApplyPlan(before, r, p) && request == p.handle && Tallied()
      ensures errors == old(errors) + [0] && reports == old(reports) + [[]]
    {
      PlanCookies(before, r, p);
      request := CreateRequest(r, busy);
      Start(request, script);
    }

    /** The section ends by joining a cookie that is there already. */
    method EndWithShared(r: nat, c: nat, script: seq<Item>, ghost before: State, ghost p: Plan) returns (request: nat)
      requires Midway(before, p) && p.handle == c < |before.order| && p.script == script && p.box == box
      modifies this
      ensures Abs() == ApplyPlan(before, r, p) && request == p.handle && Tallied()
      ensures errors == old(errors) + [0] && reports == old(reports) + [[]]
    {
      PlanCookies(before, r, p);
      request := JoinRequest(r, c);
      Start(request, script);
    }

    /** `bcast_request`, `scatter_request`, `gather_request`, `gatherv_request`. */
    method LeafRequest(r: nat) returns (request: nat)
      requires WellFormed(n, Abs()) && Tallied()
      requires kind.Rooted? && r != kind.root && Enabled(kind, n, Abs(), Join(r))
      modifies this
      ensures Abs() == Next(kind, n, old(Abs()), Join(r)) && request == procs[|procs| - 1].handle
      ensures Tallied() && errors == old(errors) + [0] && reports == WithSection(old(reports), None)
    {
      ghost var before := Abs();
      if box != [] && order[box[0]] == kind.root {
        var c := box[0];
        request := JoinRequest(r, c);
        if |order| == n {
          box := box[1..];
          cookies := cookies[c := cookies[c].(place := InPending)];
        }
        Start(request, [if kind.toLeaves then Read(c) else Write(c)]);
      } else {
        request := CreateRequest(r, 1);
        Start(request, []);
      }
      assert cookies == Next(kind, n, before, Join(r)).cookies;
    }

    /** `root_bcast_request`, `root_scatter_request`, `root_gather_request`, `root_gatherv_request`. */
    method RootRequest() returns (request: nat)
      requires WellFormed(n, Abs()) && Tallied() && kind.Rooted? && Enabled(kind, n, Abs(), Join(kind.root))
      modifies this
      ensures Abs() == Next(kind, n, old(Abs()), Join(kind.root)) && request == procs[|procs| - 1].handle
      ensures Tallied() && errors == old(errors) + [0] && reports == WithSection(old(reports), None)
    {
      ghost var before, p := Abs(), RootPlan(n, kind.toLeaves, |order|, box);
      assert Next(kind, n, before, Join(kind.root)) == ApplyPlan(before, kind.root, p);
      var todo := SpliceAll();
      assert Midway(before, p);
      if |order| + 1 == n {
        request := EndWithShared(kind.root, todo[|todo| - 1], Serve(todo, kind.toLeaves), before, p);
      } else {
        request := EndWithOwn(kind.root, n - (|order| + 1), Serve(todo, kind.toLeaves), before, p);
      }
    }

    method AllgatherRequest(r: nat) returns (request: nat)
      requires WellFormed(n, Abs()) && Tallied() && kind.Allgather? && Enabled(kind, n, Abs(), Join(r))
      modifies this
      ensures Abs() == Next(kind, n, old(Abs()), Join(r)) && request == procs[|procs| - 1].handle
      ensures Tallied() && errors == old(errors) + [0]
      ensures reports == WithSection(old(reports), if old(order) == [] then None else Some(old(box)[0]))
    {
      ghost var before, p := Abs(), AllgatherPlan(n, |order|, box);
      assert Next(kind, n, before, Join(r)) == ApplyPlan(before, r, p);
      if order == [] {
        NothingSpliced(cookies);
        request := EndWithOwn(r, n, [], before, p);
        return;
      }
      NotifyOwner(box[0], 0);
      assert Abs() == Touched(before, p);
      if |order| + 1 != n {
        NothingSpliced(cookies);
        request := EndWithOwn(r, 1, [], before, p);
      } else {
        var todo := SpliceAll();
        request := EndWithShared(r, todo[0], [Move(todo[0]), Read(todo[0])] + Serve(todo[1..], true), before, p);
      }
    }

    /** The chained form folds the last contribution so far into its own. */
    method Chain(ghost p: Plan)
      requires |order| == |cookies| == |procs| && Tallied() && forall i :: 0 <= i < |box| ==> box[i] < |order|
      requires order != [] ==> box != []
      requires p.touched == if kind.AllreduceChain? && order != [] then Some(box[|box| - 1]) else None
      modifies this`cookies, this`procs, this`errors, this`reports
      ensures Abs() == Touched(old(Abs()), p) && Tallied()
      ensures errors == old(errors) && reports + [[]] == WithSection(old(reports), p.touched)
    {
      if kind.AllreduceChain? && order != [] {
        NotifyOwner(box[|box| - 1], 0);
      }
    }

    method AllreduceRequest(r: nat) returns (request: nat)
      requires WellFormed(n, Abs()) && Tallied() && (kind.AllreduceChain? || kind.AllreduceInPlace?)
      requires Enabled(kind, n, Abs(), Join(r))
      modifies this
      ensures Abs() == Next(kind, n, old(Abs()), Join(r)) && request == procs[|procs| - 1].handle
      ensures Tallied() && errors == old(errors) + [0]
      ensures reports == WithSection(old(reports),
        if kind.AllreduceChain? && old(order) != [] then Some(old(box)[|old(box)| - 1]) else None)
    {
      AllreducePlanned(kind, n, Abs(), r);
      ghost var before, p := Abs(), AllreducePlan(n, |order|, box, kind.AllreduceChain?);
      Chain(p);
      if |order| + 1 != n {
        NothingSpliced(cookies);
        request := EndWithOwn(r, if kind.AllreduceInPlace? then 1 else 2, [], before, p);
      } else {
        var todo := SpliceAll();
        request := EndWithShared(r, todo[|todo| - 1], Serve(todo, true), before, p);
      }
    }

    /** `scan_request` and `exscan_request`. */
    method ScanRequest(r: nat) returns (request: nat)
      requires WellFormed(n, Abs()) && Tallied() && kind.Scan? && Enabled(kind, n, Abs(), Join(r))
      modifies this
      ensures Abs() == Next(kind, n, old(Abs()), Join(r)) && request == procs[|procs| - 1].handle
      ensures Tallied() && errors == old(errors) + [0] && reports == WithSection(old(reports), None)
    {
      ghost var before := Abs();
      request := CreateRequest(r, if r == 0 then 1 else 2);
      if |order| != n {
        Start(request, []);
      } else {
        var todo := SpliceAll();
        todo := BySource(order);
        Start(request, [Move(todo[0]), Read(todo[0])] + Sweep(todo[1..]));
      }
      assert cookies == Next(kind, n, before, Join(r)).cookies;
    }

    /** One call of a collective operation: the join section of its kind. */
    method Request(r: nat) returns (request: nat)
      requires Valid() && Enabled(kind, n, Abs(), Join(r))
      modifies this
      ensures Valid() && Abs() == Next(kind, n, old(Abs()), Join(r)) && request == procs[|procs| - 1].handle
      ensures errors == old(errors) + [0]
      ensures var p := PlanFor(kind, n, old(order), old(box), r);
        (p.touched.Some? ==> p.touched.value < |old(reports)|) && reports == WithSection(old(reports), p.touched)
    {
      NextValid(kind, n, Abs(), Join(r));
      match kind {
        case Rooted(root, _) =>
          if r == root { request := RootRequest(); } else { request := LeafRequest(r); }
        case Allgather => request := AllgatherRequest(r);
        case Scan => request := ScanRequest(r);
        case _ => request := AllreduceRequest(r);
      }
    }

    // ---------- steps outside the slot lock ----------

    /** `move_to_pending` of the next cookie of position k's private list. */
    method MoveToPending(k: nat)
      requires Valid() && Enabled(kind, n, Abs(), Relink(k))
      modifies this
      ensures Valid() && Abs() == Next(kind, n, old(Abs()), Relink(k))
      ensures errors == old(errors) && reports == old(reports)
    {
      NextValid(kind, n, Abs(), Relink(k));
      var c := procs[k].script[0].cookie;
      procs := procs[k := procs[k].(script := procs[k].script[1..])];
      cookies := cookies[c := cookies[c].(place := InPending)];
    }

    /** The bytes of position k's next transfer have been moved, or refused. */
    method CopyBytes(k: nat)
      requires Valid() && Enabled(kind, n, Abs(), Copy(k))
      modifies this`procs
      ensures Valid() && Abs() == Next(kind, n, old(Abs()), Copy(k))
    {
      NextValid(kind, n, Abs(), Copy(k));
      procs := procs[k := procs[k].(copied := true)];
    }

    /** The end of a transfer: position k reports it to the owner of the cookie it served. */
    method FinishTransfer(k: nat, err: int)
      requires Valid() && Enabled(kind, n, Abs(), Notify(k))
      modifies this
      ensures Valid() && Abs() == Next(kind, n, old(Abs()), Notify(k))
      ensures old(procs)[k].script[0].cookie < |old(errors)| == |old(reports)|
      ensures var c := old(procs)[k].script[0].cookie; reports == old(reports)[c := old(reports)[c] + [err]]
      ensures var c := old(procs)[k].script[0].cookie;
        errors == old(errors)[c := if old(errors)[c] != 0 then old(errors)[c] else err]
    {
      NextValid(kind, n, Abs(), Notify(k));
      var c := procs[k].script[0].cookie;
      procs := procs[k := procs[k].(script := procs[k].script[1..], copied := false)];
      NotifyOwner(c, err);
    }

    /** The first test of `busy_` in `wait`: true when the wait is over, false when it goes to sleep. */
    method BeginWait(k: nat) returns (done: bool)
      requires Valid() && Enabled(kind, n, Abs(), Wait(k))
      modifies this
      ensures Valid() && Abs() == Next(kind, n, old(Abs()), Wait(k))
      ensures errors == old(errors) && reports == old(reports)
      ensures done <==> procs[k].phase == Returned
      ensures done <==> procs[k].handle != k || cookies[k].busy == 0
      ensures !done ==> cookies[k].busy > 0
    {
      NextValid(kind, n, Abs(), Wait(k));
      assert CookieInv(kind, n, Abs(), k);
      done := !(procs[k].handle == k && cookies[k].busy != 0);
      procs := procs[k := procs[k].(phase := if done then Returned else Blocked)];
    }

    /** The test after the condition variable has returned, signalled or not: only an owner gets here. */
    method ResumeWait(k: nat) returns (done: bool)
      requires Valid() && Enabled(kind, n, Abs(), Wake(k))
      modifies this`procs
      ensures Valid() && Abs() == Next(kind, n, old(Abs()), Wake(k))
      ensures procs[k].handle == k && (done <==> cookies[k].busy == 0)
      ensures old(procs)[k].phase == Signalled ==> done
    {
      NextValid(kind, n, Abs(), Wake(k));
      assert ProcInv(Abs(), k);
      done := cookies[k].busy == 0;
      procs := procs[k := procs[k].(phase := if done then Returned else Blocked)];
    }

    /** `finalize` takes a pending cookie without handles: nothing is owed to it any more. */
    method Reclaim(c: nat)
      requires Valid() && Enabled(kind, n, Abs(), Action.Reclaim(c))
      modifies this`cookies
      ensures Valid() && Abs() == Next(kind, n, old(Abs()), Action.Reclaim(c))
      ensures forall k :: 0 <= k < |procs| && procs[k].handle == c ==> procs[k].phase == Left
    {
      NextValid(kind, n, Abs(), Action.Reclaim(c));
      forall k | 0 <= k < |procs| && procs[k].handle == c ensures procs[k].phase == Left {
        assert CookieInv(kind, n, Abs(), c);
        if procs[k].phase != Left { HolderCounted(procs, k, c); }
      }
      cookies := cookies[c := cookies[c].(place := Reclaimed)];
    }

    /** The end of a wait: the error kept for the cookie is returned, and position k's handle given up. */
    method LeaveRequest(k: nat) returns (err: int)
      requires Valid() && Enabled(kind, n, Abs(), Leave(k))
      modifies this`cookies, this`procs
      ensures Valid() && Abs() == Next(kind, n, old(Abs()), Leave(k))
      ensures procs[k].handle < |reports| && err == FirstError(reports[procs[k].handle])
      ensures err == 0 <==> forall i :: 0 <= i < |reports[procs[k].handle]| ==> reports[procs[k].handle][i] == 0
    {
      NextValid(kind, n, Abs(), Leave(k));
      var c := procs[k].handle;
      FirstErrorOf(reports[c]);
      err := errors[c];
      procs := procs[k := procs[k].(phase := Left)];
      cookies := cookies[c := cookies[c].(used := cookies[c].used - 1)];
    }
  }
}
