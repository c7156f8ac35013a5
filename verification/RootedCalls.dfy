/**
  Bcast, scatter and gather(v) when transfers are refused. A rank whose transfer is refused reports it and
  returns the error from its call without waiting. For a root this ends the life of its private list: the
  nodes still on it are destroyed, and nobody reports on them any more.
 */
module RootedCalls {
  import opened Basics
  import opened Ledger
  import opened LedgerPlans
  import opened LedgerRuns
  import opened LedgerTheorems
  import opened LedgerProgress
  import opened Completion
  import opened RootedCollectives

  /**
    Positions whose transfer was refused, those of them whose call has returned the error, and the cookies
    destroyed with a root's list. A failed rank takes no further step: the ledger keeps what it has dropped.
   */
  datatype Calls = Calls(ledger: State, refused: set<nat>, failed: set<nat>, destroyed: set<nat>)

  datatype Event = Do(action: Action) | Fail(pos: nat)

  predicate Sized(sp: Spec) {
    |sp.early| == |sp.late| == |sp.len| == sp.n && Sizes(KindOf(sp), sp.n)
  }

  /** The step is a transfer that fails the size check. */
  predicate Refused(sp: Spec, s: State, a: Action)
    requires Sized(sp) && Inv(KindOf(sp), sp.n, s) && WellFormed(sp.n, s) && Enabled(KindOf(sp), sp.n, s, a)
  {
    a.Copy? &&
    var other := s.order[s.procs[a.pos].script[0].cookie];
    if s.order[a.pos] == sp.root then !Accepts(sp, other, true) else !Accepts(sp, s.order[a.pos], false)
  }

  /** The rank at position k takes the step. */
  predicate By(a: Action, k: nat) {
    !a.Join? && !a.Reclaim? && a.pos == k
  }

  /** After a refusal a rank only reports it, and then its call fails. */
  predicate Unhindered(x: Calls, a: Action) {
    a.Join? || a.Reclaim? || (a.pos !in x.failed && (a.pos in x.refused ==> a.Notify?))
  }

  predicate Possible(sp: Spec, x: Calls, e: Event) {
    match e
    case Do(a) => WellFormed(sp.n, x.ledger) && Enabled(KindOf(sp), sp.n, x.ledger, a) && Unhindered(x, a)
    case Fail(k) => k in x.refused && k !in x.failed && k < |x.ledger.procs| && !x.ledger.procs[k].copied
  }

  /** The cookies still on a rank's private list. */
  function Listed(script: seq<Item>): set<nat> {
    set i | 0 <= i < |script| && script[i].Move? :: script[i].cookie
  }

  function Happens(sp: Spec, x: Calls, e: Event): Calls
    requires Sized(sp) && Inv(KindOf(sp), sp.n, x.ledger) && Possible(sp, x, e)
  {
    match e
    case Do(a) =>
      x.(ledger := Next(KindOf(sp), sp.n, x.ledger, a),
         refused := if Refused(sp, x.ledger, a) then x.refused + {a.pos} else x.refused)
    case Fail(k) => x.(failed := x.failed + {k}, destroyed := x.destroyed + Listed(x.ledger.procs[k].script))
  }

  /** The ledger's steps in a run. */
  function Acts(events: seq<Event>): seq<Action> {
    if events == [] then [] else
    var last := events[|events| - 1];
    Acts(events[..|events| - 1]) + if last.Do? then [last.action] else []
  }

  lemma HappensInv(sp: Spec, x: Calls, e: Event)
    requires Sized(sp) && Inv(KindOf(sp), sp.n, x.ledger) && WellFormed(sp.n, x.ledger) && Possible(sp, x, e)
    ensures Inv(KindOf(sp), sp.n, Happens(sp, x, e).ledger) && WellFormed(sp.n, Happens(sp, x, e).ledger)
  {
    if e.Do? {
      NextInv(KindOf(sp), sp.n, x.ledger, e.action);
      InvWellFormed(KindOf(sp), sp.n, Next(KindOf(sp), sp.n, x.ledger, e.action));
    }
  }

  ghost predicate Sound(sp: Spec, x: Calls)
    requires Sized(sp)
  {
    Inv(KindOf(sp), sp.n, x.ledger) && WellFormed(sp.n, x.ledger)
  }

  /** The calls after a run, or None when one of its events was not possible. */
  function AfterCalls(sp: Spec, events: seq<Event>): (x: Option<Calls>)
    requires Sized(sp)
    ensures x.Some? ==> Sound(sp, x.value)
  {
    if events == [] then
      assert After(KindOf(sp), sp.n, []) == Some(INIT);
      Some(Calls(INIT, {}, {}, {}))
    else
      var prior := AfterCalls(sp, events[..|events| - 1]);
      var e := events[|events| - 1];
      if prior.None? || !Possible(sp, prior.value, e) then None else
      HappensInv(sp, prior.value, e);
      Some(Happens(sp, prior.value, e))
  }

  /** A run of calls is a run of the ledger in which some ranks have stopped. */
  lemma {:induction false} LedgerRun(sp: Spec, events: seq<Event>)
    requires Sized(sp) && AfterCalls(sp, events).Some?
    ensures After(KindOf(sp), sp.n, Acts(events)) == Some(AfterCalls(sp, events).value.ledger)
  {
    if events != [] {
      var prior, e := events[..|events| - 1], events[|events| - 1];
      LedgerRun(sp, prior);
      if e.Do? {
        Extend(KindOf(sp), sp.n, Acts(prior), e.action);
      } else {
        assert Acts(prior) + [] == Acts(prior);
      }
    }
  }

  // ---------- what every event keeps ----------

  /** Relinkings alternate with transfers, beginning with a relinking. */
  predicate Paired(script: seq<Item>) {
    script == [] || (|script| >= 2 && script[0].Move? && !script[1].Move? && script[1].cookie == script[0].cookie
                     && Paired(script[2..]))
  }

  /** The same, or the transfer of a cookie just relinked comes first. */
  predicate HalfPaired(script: seq<Item>) {
    Paired(script) || (script != [] && !script[0].Move? && Paired(script[1..]))
  }

  /** Some leaf would be refused if it came before the root. */
  predicate LateRefusal(sp: Spec)
    requires Sized(sp)
  {
    exists r :: 0 <= r < sp.n && r != sp.root && !Accepts(sp, r, true)
  }

  /** What is left of a root's list, and of a leaf's one transfer. */
  predicate ListFits(root: bool, todo: seq<Item>, handle: nat, k: nat) {
    if root then HalfPaired(todo) && |todo| <= 2 * k else |todo| <= 1 && (todo != [] ==> handle != k)
  }

  ghost predicate ListInv(sp: Spec, s: State, k: nat)
    requires k < |s.procs| == |s.order|
  {
    ListFits(s.order[k] == sp.root, Uncopied(s.procs[k]), s.procs[k].handle, k)
  }

  /** A transfer whose bytes have moved, and that is still to be reported. */
  ghost predicate HeadInv(sp: Spec, s: State, k: nat)
    requires k < |s.procs| == |s.order|
  {
    s.procs[k].copied && s.procs[k].script != [] ==> TypedItem(sp, s.order, k, s.procs[k].script[0])
  }

  ghost predicate RefusedInv(sp: Spec, x: Calls, k: nat)
    requires Sized(sp) && k < |x.ledger.procs| == |x.ledger.order|
  {
    var p := x.ledger.procs[k];
    && p.phase == Serving
    && (if x.ledger.order[k] == sp.root then Paired(Uncopied(p)) && |Uncopied(p)| + 2 <= 2 * k && LateRefusal(sp)
        else Uncopied(p) == [] && p.handle != k)
  }

  ghost predicate CallsInv(sp: Spec, x: Calls) {
    && Sized(sp) && Inv(KindOf(sp), sp.n, x.ledger) && WellFormed(sp.n, x.ledger) && Typed(sp, x.ledger)
    && |x.ledger.procs| == |x.ledger.order|
    && (forall k :: 0 <= k < |x.ledger.procs| ==> ListInv(sp, x.ledger, k) && HeadInv(sp, x.ledger, k))
    && (forall k :: k in x.refused ==> k < |x.ledger.procs| && RefusedInv(sp, x, k))
    && (forall k :: k in x.failed ==> k in x.refused && !x.ledger.procs[k].copied)
    && (forall c :: c in x.destroyed <==> exists k :: k in x.failed && c in Listed(x.ledger.procs[k].script))
  }

  lemma {:induction false} ServePaired(todo: seq<nat>, write: bool)
    ensures Paired(Serve(todo, write))
  {
    if todo != [] {
      ServePaired(todo[1..], write);
      assert Serve(todo, write)[2..] == Serve(todo[1..], write);
    }
  }

  lemma {:induction false} PairsAreEven(script: seq<Item>)
    requires Paired(script)
    ensures |script| % 2 == 0
  {
    if script != [] { PairsAreEven(script[2..]); }
  }

  /** A rank's own record changes by its own steps only, but for the signal that wakes it. */
  lemma OwnSteps(kind: Kind, n: nat, s: State, a: Action, k: nat)
    requires Inv(kind, n, s) && WellFormed(n, s) && Enabled(kind, n, s, a) && k < |s.procs|
    ensures |s.procs| <= |Next(kind, n, s, a).procs|
    ensures !By(a, k) ==> var p, q := s.procs[k], Next(kind, n, s, a).procs[k];
      && q.script == p.script && q.copied == p.copied
      && (q.phase == p.phase || (p.phase == Blocked && q.phase == Signalled))
    ensures a == Notify(k) && s.procs[k].phase == Serving ==>
      Next(kind, n, s, a).procs[k].phase == Serving && !Next(kind, n, s, a).procs[k].copied
    ensures a == Relink(k) ==> Next(kind, n, s, a).procs[k].copied == s.procs[k].copied
    ensures a == Copy(k) || a == Relink(k) ==> Next(kind, n, s, a).procs[k].phase == s.procs[k].phase
  {
    match a
    case Join(r) => TouchedFrame(s, PlanFor(kind, n, s.order, s.box, r), k);
    case Notify(j) =>
      var mid := SetProc(s, j, s.procs[j].(script := s.procs[j].script[1..], copied := false));
      NotifyDoneFrame(mid, s.procs[j].script[0].cookie, k);
    case _ =>
  }

  lemma RootList(sp: Spec, s: State)
    requires Inv(KindOf(sp), sp.n, s) && WellFormed(sp.n, s) && Enabled(KindOf(sp), sp.n, s, Join(sp.root))
    ensures var p := PlanFor(KindOf(sp), sp.n, s.order, s.box, sp.root);
      Paired(p.script) && |p.script| <= 2 * |s.order|
  {
    ServePaired(s.box, sp.toLeaves);
    ServeTally(s.box, sp.toLeaves, true, 0);
  }

  lemma ListShrinks(root: bool, todo: seq<Item>, handle: nat, k: nat)
    requires ListFits(root, todo, handle, k) && todo != []
    ensures ListFits(root, todo[1..], handle, k)
  {
    if Paired(todo) { assert todo[1..][1..] == todo[2..]; }
  }

  lemma LeafList(sp: Spec, s: State, r: nat)
    requires Inv(KindOf(sp), sp.n, s) && WellFormed(sp.n, s) && Enabled(KindOf(sp), sp.n, s, Join(r)) && r != sp.root
    ensures var p := PlanFor(KindOf(sp), sp.n, s.order, s.box, r);
      |p.script| <= 1 && (p.script != [] ==> p.handle != |s.order|)
  {
  }

  lemma NewList(sp: Spec, s: State, r: nat)
    requires Inv(KindOf(sp), sp.n, s) && WellFormed(sp.n, s) && Enabled(KindOf(sp), sp.n, s, Join(r))
    ensures var p := PlanFor(KindOf(sp), sp.n, s.order, s.box, r); ListFits(r == sp.root, p.script, p.handle, |s.order|)
  {
    if r == sp.root { RootList(sp, s); } else { LeafList(sp, s, r); }
  }

  lemma ListStep(sp: Spec, s: State, a: Action, k: nat)
    requires Inv(KindOf(sp), sp.n, s) && WellFormed(sp.n, s) && Enabled(KindOf(sp), sp.n, s, a)
    requires |s.procs| == |s.order| && (k < |s.procs| ==> ListInv(sp, s, k))
    requires k < |Next(KindOf(sp), sp.n, s, a).procs| == |Next(KindOf(sp), sp.n, s, a).order|
    ensures ListInv(sp, Next(KindOf(sp), sp.n, s, a), k)
  {
    var t := Next(KindOf(sp), sp.n, s, a);
    if k < |s.procs| {
      assert ListInv(sp, s, k);
      UncopiedStep(KindOf(sp), sp.n, s, a, k);
      var todo := Uncopied(s.procs[k]);
      if todo != [] { ListShrinks(s.order[k] == sp.root, todo, s.procs[k].handle, k); }
    } else if a.Join? {
      UncopiedJoin(KindOf(sp), sp.n, s, a.rank);
      NewList(sp, s, a.rank);
    } else {
      OtherSteps(KindOf(sp), sp.n, s, a);
    }
  }

  lemma HeadStep(sp: Spec, s: State, a: Action, k: nat)
    requires Inv(KindOf(sp), sp.n, s) && WellFormed(sp.n, s) && Enabled(KindOf(sp), sp.n, s, a) && Typed(sp, s)
    requires |s.procs| == |s.order| && (k < |s.procs| ==> HeadInv(sp, s, k))
    requires k < |Next(KindOf(sp), sp.n, s, a).procs| == |Next(KindOf(sp), sp.n, s, a).order|
    ensures HeadInv(sp, Next(KindOf(sp), sp.n, s, a), k)
  {
    OrderGrows(KindOf(sp), sp.n, s, a);
    if k < |s.procs| {
      OwnSteps(KindOf(sp), sp.n, s, a, k);
      assert ProcInv(s, k);
      assert a == Copy(k) ==> TypedItem(sp, s.order, k, Uncopied(s.procs[k])[0]);
    } else {
      NewcomerUncopied(KindOf(sp), sp.n, s, a);
    }
  }

  lemma NewcomerUncopied(kind: Kind, n: nat, s: State, a: Action)
    requires Inv(kind, n, s) && WellFormed(n, s) && Enabled(kind, n, s, a)
    ensures |Next(kind, n, s, a).procs| > |s.procs| ==> !Next(kind, n, s, a).procs[|s.procs|].copied
    ensures |Next(kind, n, s, a).procs| <= |s.procs| + 1
  {
    if a.Join? { UncopiedJoin(kind, n, s, a.rank); } else { OtherSteps(kind, n, s, a); }
  }

  /** A refused transfer of the root's was paired with the relinking before it. */
  lemma RefusedRoot(sp: Spec, s: State, k: nat)
    requires Sized(sp) && Inv(KindOf(sp), sp.n, s) && WellFormed(sp.n, s) && Enabled(KindOf(sp), sp.n, s, Copy(k))
    requires |s.procs| == |s.order| && Typed(sp, s) && ListInv(sp, s, k) && s.order[k] == sp.root
    requires Refused(sp, s, Copy(k))
    ensures Uncopied(s.procs[k]) != [] && LateRefusal(sp)
    ensures Paired(Uncopied(s.procs[k])[1..]) && |Uncopied(s.procs[k])[1..]| + 2 <= 2 * k
  {
    var j := CopyServes(sp, s, k);
    PairsAreEven(Uncopied(s.procs[k])[1..]);
    assert !Accepts(sp, s.order[j], true) && s.order[j] < sp.n;
  }

  lemma CopyRefused(sp: Spec, x: Calls, k: nat)
    requires CallsInv(sp, x) && Possible(sp, x, Do(Copy(k))) && Refused(sp, x.ledger, Copy(k))
    ensures var y := Happens(sp, x, Do(Copy(k)));
      |y.ledger.procs| == |y.ledger.order| && k < |y.ledger.procs| && RefusedInv(sp, y, k)
  {
    var s := x.ledger;
    OtherSteps(KindOf(sp), sp.n, s, Copy(k));
    UncopiedStep(KindOf(sp), sp.n, s, Copy(k), k);
    OwnSteps(KindOf(sp), sp.n, s, Copy(k), k);
    assert ListInv(sp, s, k) && ProcInv(s, k);
    if s.order[k] == sp.root { RefusedRoot(sp, s, k); }
  }

  lemma RefusedKept(sp: Spec, x: Calls, a: Action, k: nat)
    requires CallsInv(sp, x) && Possible(sp, x, Do(a)) && k in x.refused
    ensures var y := Happens(sp, x, Do(a));
      |y.ledger.procs| == |y.ledger.order| && k < |y.ledger.procs| && RefusedInv(sp, y, k)
  {
    UncopiedStep(KindOf(sp), sp.n, x.ledger, a, k);
    OwnSteps(KindOf(sp), sp.n, x.ledger, a, k);
    OrderLength(KindOf(sp), sp.n, x.ledger, a);
    assert RefusedInv(sp, x, k);
  }

  lemma OrderLength(kind: Kind, n: nat, s: State, a: Action)
    requires Inv(kind, n, s) && WellFormed(n, s) && Enabled(kind, n, s, a)
    ensures |Next(kind, n, s, a).procs| == |Next(kind, n, s, a).order|
  {
    if a.Join? { UncopiedJoin(kind, n, s, a.rank); } else { OtherSteps(kind, n, s, a); }
  }

  /** A failed rank's record no longer changes. */
  lemma FailedFrozen(sp: Spec, x: Calls, a: Action, k: nat)
    requires CallsInv(sp, x) && Possible(sp, x, Do(a)) && k in x.failed
    ensures var y := Happens(sp, x, Do(a));
      k < |x.ledger.procs| <= |y.ledger.procs| && y.ledger.procs[k].script == x.ledger.procs[k].script
      && !y.ledger.procs[k].copied
  {
    OwnSteps(KindOf(sp), sp.n, x.ledger, a, k);
  }

  lemma DoKeeps(sp: Spec, x: Calls, a: Action)
    requires CallsInv(sp, x) && Possible(sp, x, Do(a))
    ensures CallsInv(sp, Happens(sp, x, Do(a)))
  {
    var y := Happens(sp, x, Do(a));
    HappensInv(sp, x, Do(a));
    TypedStep(sp, x.ledger, a);
    OrderLength(KindOf(sp), sp.n, x.ledger, a);
    forall k | 0 <= k < |y.ledger.procs| ensures ListInv(sp, y.ledger, k) && HeadInv(sp, y.ledger, k) {
      ListStep(sp, x.ledger, a, k);
      HeadStep(sp, x.ledger, a, k);
    }
    forall k | k in y.refused ensures k < |y.ledger.procs| && RefusedInv(sp, y, k) {
      if k in x.refused { RefusedKept(sp, x, a, k); } else { CopyRefused(sp, x, k); }
    }
    forall k | k in x.failed
      ensures y.ledger.procs[k].script == x.ledger.procs[k].script && !y.ledger.procs[k].copied
    {
      FailedFrozen(sp, x, a, k);
    }
  }

  lemma FailKeeps(sp: Spec, x: Calls, k: nat)
    requires CallsInv(sp, x) && Possible(sp, x, Fail(k))
    ensures CallsInv(sp, Happens(sp, x, Fail(k)))
  {
    var y := Happens(sp, x, Fail(k));
    forall j | j in y.refused ensures j < |y.ledger.procs| && RefusedInv(sp, y, j) { assert RefusedInv(sp, x, j); }
  }

  /** In every run of calls. */
  lemma {:induction false} AlwaysCalls(sp: Spec, events: seq<Event>)
    requires Sized(sp) && AfterCalls(sp, events).Some?
    ensures CallsInv(sp, AfterCalls(sp, events).value)
  {
    if events != [] {
      AlwaysCalls(sp, events[..|events| - 1]);
      match events[|events| - 1]
      case Do(a) => DoKeeps(sp, AfterCalls(sp, events[..|events| - 1]).value, a);
      case Fail(k) => FailKeeps(sp, AfterCalls(sp, events[..|events| - 1]).value, k);
    }
  }
}
