/**
  What refusals leave of the ledger's guarantees, and exactly when they leave everything: every call
  returns, and no node that somebody holds is destroyed.
 */
module CallTheorems {
  import opened Basics
  import opened Ledger
  import opened LedgerPlans
  import opened LedgerRuns
  import opened LedgerTheorems
  import opened LedgerProgress
  import opened Completion
  import opened RootedCollectives
  import opened RootedCalls

  // ---------- transfers to come and transfers lost ----------

  /** Items on cookie c of the ranks whose calls have failed, or of the others. */
  ghost function Items(procs: seq<Proc>, failed: set<nat>, lost: bool, move: bool, c: nat): nat {
    if procs == [] then 0 else
    var k := |procs| - 1;
    Items(procs[..k], failed, lost, move, c) + if (k in failed) == lost then Tally(procs[k].script, move, c) else 0
  }

  /** Items that ranks still in their calls will come to. */
  ghost function Coming(x: Calls, c: nat): nat { Items(x.ledger.procs, x.failed, false, false, c) }

  lemma {:induction false} ItemsSplit(procs: seq<Proc>, failed: set<nat>, move: bool, c: nat)
    ensures Owed(procs, move, c) == Items(procs, failed, false, move, c) + Items(procs, failed, true, move, c)
  {
    if procs != [] { ItemsSplit(procs[..|procs| - 1], failed, move, c); }
  }

  lemma {:induction false} PairedTally(script: seq<Item>, c: nat)
    requires Paired(script)
    ensures Tally(script, true, c) == Tally(script, false, c)
    ensures c in Listed(script) <==> Tally(script, true, c) > 0
  {
    if script == [] {
    } else {
      PairedTally(script[2..], c);
      assert script == [script[0], script[1]] + script[2..];
      TallyCons2(script[0], script[1], script[2..], true, c);
      TallyCons2(script[0], script[1], script[2..], false, c);
      ListedCons(script, c);
    }
  }

  lemma ListedCons(script: seq<Item>, c: nat)
    requires |script| >= 2 && script[0].Move? && !script[1].Move?
    ensures c in Listed(script) <==> c == script[0].cookie || c in Listed(script[2..])
  {
    if c in Listed(script[2..]) {
      var i :| 0 <= i < |script[2..]| && script[2..][i].Move? && script[2..][i].cookie == c;
      assert script[i + 2] == script[2..][i];
    }
    if c in Listed(script) {
      var i :| 0 <= i < |script| && script[i].Move? && script[i].cookie == c;
      if i >= 2 { assert script[2..][i - 2] == script[i]; }
    }
  }

  lemma {:induction false} LostItems(procs: seq<Proc>, failed: set<nat>, c: nat)
    requires forall k :: 0 <= k < |procs| && k in failed ==> Paired(procs[k].script)
    ensures Items(procs, failed, true, true, c) == Items(procs, failed, true, false, c)
    ensures Items(procs, failed, true, true, c) > 0 <==>
      exists k :: 0 <= k < |procs| && k in failed && c in Listed(procs[k].script)
  {
    if procs != [] {
      var m := |procs| - 1;
      LostItems(procs[..m], failed, c);
      if m in failed { PairedTally(procs[m].script, c); }
      if Items(procs, failed, true, true, c) > 0 && !(m in failed && c in Listed(procs[m].script)) {
        var k :| 0 <= k < m && k in failed && c in Listed(procs[..m][k].script);
        assert procs[k] == procs[..m][k];
      }
      if k :| 0 <= k < |procs| && k in failed && c in Listed(procs[k].script) && k != m {
        assert procs[..m][k] == procs[k];
      }
    }
  }

  /** A failed rank had its relinkings and transfers in pairs: a leaf none, a root those of its list. */
  lemma FailedPaired(sp: Spec, x: Calls, k: nat)
    requires CallsInv(sp, x) && k in x.failed
    ensures k < |x.ledger.procs| && Paired(x.ledger.procs[k].script)
  {
    assert k in x.refused && RefusedInv(sp, x, k);
  }

  /** What a cookie's count is made of. */
  lemma Balance(sp: Spec, x: Calls, c: nat)
    requires CallsInv(sp, x) && c < |x.ledger.cookies|
    ensures Owed(x.ledger.procs, false, c) == Coming(x, c) + if c in x.destroyed then 1 else 0
    ensures c in x.destroyed ==> x.ledger.cookies[c].place == InTodo
  {
    var procs := x.ledger.procs;
    forall k | 0 <= k < |procs| && k in x.failed ensures Paired(procs[k].script) { FailedPaired(sp, x, k); }
    ItemsSplit(procs, x.failed, true, c);
    ItemsSplit(procs, x.failed, false, c);
    LostItems(procs, x.failed, c);
    assert CookieInv(KindOf(sp), sp.n, x.ledger, c);
    if c in x.destroyed {
      var k :| k in x.failed && c in Listed(procs[k].script);
      FailedPaired(sp, x, k);
    }
  }

  /** In every run: `busy_` is the transfers to come, and one more on a destroyed cookie, which nobody will report. */
  lemma {:induction false} TransferLedger(sp: Spec, events: seq<Event>, c: nat)
    requires Sized(sp) && AfterCalls(sp, events).Some? && c < |AfterCalls(sp, events).value.ledger.cookies|
    ensures var x := AfterCalls(sp, events).value; var ck := x.ledger.cookies[c];
      && |x.ledger.order| <= sp.n && ck.busy >= 0
      && (ck.place != Nowhere ==>
            ck.busy == Coming(x, c) + Future(KindOf(sp), sp.n, x.ledger.order, c) + if c in x.destroyed then 1 else 0)
  {
    AlwaysCalls(sp, events);
    Balance(sp, AfterCalls(sp, events).value, c);
    assert CookieInv(KindOf(sp), sp.n, AfterCalls(sp, events).value.ledger, c);
  }

  /** A rank sleeps only while a transfer is coming, or for ever: its cookie has been destroyed. */
  lemma {:induction false} NoLostWakeup(sp: Spec, events: seq<Event>, k: nat)
    requires Sized(sp) && AfterCalls(sp, events).Some? && k < |AfterCalls(sp, events).value.ledger.procs|
    ensures var x := AfterCalls(sp, events).value; var p := x.ledger.procs[k];
      && |x.ledger.order| <= sp.n
      && (p.phase == Blocked ==>
            p.handle == k && (Coming(x, k) + Future(KindOf(sp), sp.n, x.ledger.order, k) > 0 || k in x.destroyed))
      && (p.phase == Signalled || (p.handle == k && (p.phase == Returned || p.phase == Left)) ==>
            Coming(x, k) + Future(KindOf(sp), sp.n, x.ledger.order, k) == 0 && k !in x.destroyed)
  {
    AlwaysCalls(sp, events);
    var x := AfterCalls(sp, events).value;
    Balance(sp, x, k);
    assert ProcInv(x.ledger, k) && CookieInv(KindOf(sp), sp.n, x.ledger, k);
  }

  /**
    `used_` counts the handles not left; a held cookie is not reclaimed; and a cookie is destroyed only
    with the list of a root that was refused, while its owner is still in its call, which never returns.
   */
  lemma {:induction false} HandleSafety(sp: Spec, events: seq<Event>, k: nat)
    requires Sized(sp) && AfterCalls(sp, events).Some? && k < |AfterCalls(sp, events).value.ledger.procs|
    ensures var x := AfterCalls(sp, events).value; var s := x.ledger; var c := s.procs[k].handle;
      && c < |s.cookies| && s.cookies[c].used == LiveHandles(s.procs, c)
      && (s.procs[k].phase != Phase.Left ==> s.cookies[c].place != Nowhere && s.cookies[c].place != Reclaimed)
      && (c in x.destroyed ==> LateRefusal(sp) && sp.n > 2 && s.procs[c].handle == c && s.cookies[c].used > 0
                               && (s.procs[c].phase == Serving || s.procs[c].phase == Blocked))
  {
    AlwaysCalls(sp, events);
    var x := AfterCalls(sp, events).value;
    var c := x.ledger.procs[k].handle;
    assert ProcInv(x.ledger, k) && CookieInv(KindOf(sp), sp.n, x.ledger, c);
    if x.ledger.procs[k].phase != Phase.Left { HolderCounted(x.ledger.procs, k, c); }
    if c in x.destroyed { Destroyed(sp, x, c); }
  }

  /** What is destroyed was on the list of a root that arrived third or later and was refused. */
  lemma Destroyed(sp: Spec, x: Calls, c: nat)
    requires CallsInv(sp, x) && c in x.destroyed
    ensures LateRefusal(sp) && sp.n > 2 && x.ledger.order != [] && x.ledger.order[0] != sp.root
    ensures c < |x.ledger.procs| && x.ledger.procs[c].handle == c && c !in x.refused
    ensures x.ledger.procs[c].phase == Serving || x.ledger.procs[c].phase == Blocked
    ensures c < |x.ledger.cookies| && x.ledger.cookies[c].used > 0
  {
    var s := x.ledger;
    var k :| k in x.failed && c in Listed(s.procs[k].script);
    assert k in x.refused && RefusedInv(sp, x, k) && ProcInv(s, k);
    var i :| 0 <= i < |s.procs[k].script| && s.procs[k].script[i].Move? && s.procs[k].script[i].cookie == c;
    assert TypedItem(sp, s.order, k, Uncopied(s.procs[k])[i]);
    Balance(sp, x, c);
    assert CookieInv(KindOf(sp), sp.n, s, c) && ProcInv(s, c);
    assert c in x.refused ==> RefusedInv(sp, x, c);
    HolderCounted(s.procs, c, c);
  }

  /** A transfer under way serves the root's cookie, or is the root's own: no destroyed cookie either way. */
  lemma DestroyedApart(sp: Spec, x: Calls, c: nat, k: nat)
    requires CallsInv(sp, x) && c in x.destroyed && k < |x.ledger.procs| && k !in x.failed
    requires x.ledger.procs[k].script != [] && !x.ledger.procs[k].script[0].Move?
    ensures x.ledger.procs[k].script[0].cookie != c
  {
    var s := x.ledger;
    var j :| j in x.failed && c in Listed(s.procs[j].script);
    assert j in x.refused && RefusedInv(sp, x, j);
    var i :| 0 <= i < |s.procs[j].script| && s.procs[j].script[i].Move? && s.procs[j].script[i].cookie == c;
    assert TypedItem(sp, s.order, j, Uncopied(s.procs[j])[i]);
    assert HeadInv(sp, s, k);
    if !s.procs[k].copied { assert TypedItem(sp, s.order, k, Uncopied(s.procs[k])[0]); }
    assert s.order[k] == sp.root ==> k == j;
  }

  /** Bytes move, and counts drop, only on cookies that still exist and whose owner's wait has not returned. */
  lemma {:induction false} NoTransferAfterReturn(sp: Spec, events: seq<Event>, k: nat)
    requires Sized(sp) && AfterCalls(sp, events).Some?
    requires var x := AfterCalls(sp, events).value; Possible(sp, x, Do(Copy(k))) || Possible(sp, x, Do(Notify(k)))
    ensures var x := AfterCalls(sp, events).value; var s := x.ledger; var c := s.procs[k].script[0].cookie;
      && c !in x.destroyed && s.cookies[c].busy > 0 && s.cookies[c].used > 0 && s.procs[c].handle == c
      && (s.procs[c].phase == Serving || s.procs[c].phase == Blocked)
      && (c in x.failed ==> LateRefusal(sp) && s.order[c] == sp.root)
  {
    AlwaysCalls(sp, events);
    LedgerRun(sp, events);
    var x := AfterCalls(sp, events).value;
    var c := x.ledger.procs[k].script[0].cookie;
    LedgerTheorems.NoTransferAfterCompletion(KindOf(sp), sp.n, Acts(events), k);
    assert c in x.failed ==> RefusedInv(sp, x, c);
    forall d | d in x.destroyed ensures d != c { DestroyedApart(sp, x, d, k); }
  }

  // ---------- when every call returns ----------

  /** Every rank has entered and its call has returned, with or without an error. */
  ghost predicate Over(sp: Spec, x: Calls) {
    |x.ledger.order| == sp.n
    && forall k :: 0 <= k < |x.ledger.procs| ==> k in x.failed || x.ledger.procs[k].phase == Phase.Left
  }

  lemma PairedLists(script: seq<Item>)
    requires Paired(script)
    ensures script != [] ==> script[0].cookie in Listed(script)
  {
  }

  /** Nothing has been refused to a root with something left on its list. */
  lemma NothingDropped(sp: Spec, x: Calls, k: nat)
    requires CallsInv(sp, x) && x.destroyed == {} && k in x.failed
    ensures k < |x.ledger.procs| && x.ledger.procs[k].script == []
  {
    FailedPaired(sp, x, k);
    PairedLists(x.ledger.procs[k].script);
    forall c: nat ensures c !in Listed(x.ledger.procs[k].script) { assert c !in x.destroyed; }
  }

  lemma RefusedGoesOn(sp: Spec, x: Calls, k: nat) returns (e: Event)
    requires CallsInv(sp, x) && k in x.refused && k !in x.failed
    ensures Possible(sp, x, e) && (e.Do? ==> Effective(x.ledger, e.action))
  {
    assert RefusedInv(sp, x, k) && ProcInv(x.ledger, k);
    e := if x.ledger.procs[k].copied then Do(Notify(k)) else Fail(k);
  }

  lemma ServesOn(sp: Spec, x: Calls, k: nat) returns (a: Action)
    requires CallsInv(sp, x) && k < |x.ledger.procs| && k !in x.refused && x.ledger.procs[k].script != []
    ensures Possible(sp, x, Do(a)) && Effective(x.ledger, a)
  {
    assert k !in x.failed && ProcInv(x.ledger, k);
    var p := x.ledger.procs[k];
    a := if p.script[0].Move? then Relink(k) else if p.copied then Notify(k) else Copy(k);
  }

  lemma WaitsOn(sp: Spec, x: Calls, k: nat) returns (a: Action)
    requires CallsInv(sp, x) && k < |x.ledger.procs| && k !in x.refused && |x.ledger.order| == sp.n
    requires x.ledger.procs[k].phase != Phase.Left
    requires forall j :: 0 <= j < |x.ledger.procs| ==> x.ledger.procs[j].script == []
    ensures Possible(sp, x, Do(a)) && Effective(x.ledger, a)
  {
    var p := x.ledger.procs[k];
    assert ProcInv(x.ledger, k) && CookieInv(KindOf(sp), sp.n, x.ledger, k);
    NoScriptsNothingOwed(x.ledger.procs, false, k);
    a := if p.phase == Serving then Wait(k) else if p.phase == Returned then Leave(k) else Wake(k);
  }

  /** While nothing is destroyed, some rank can go on until every call has returned. */
  lemma GoesOn(sp: Spec, x: Calls) returns (e: Event)
    requires CallsInv(sp, x) && x.destroyed == {} && !Over(sp, x)
    ensures Possible(sp, x, e) && (e.Do? ==> Effective(x.ledger, e.action))
  {
    var s := x.ledger;
    if |s.order| < sp.n {
      var r := MissingRank(s.order, sp.n);
      JoinEnabled(KindOf(sp), sp.n, s, r);
      return Do(Join(r));
    }
    if k :| k in x.refused && k !in x.failed {
      e := RefusedGoesOn(sp, x, k);
      return;
    }
    forall k | k in x.failed ensures k < |s.procs| && s.procs[k].script == [] { NothingDropped(sp, x, k); }
    if k :| 0 <= k < |s.procs| && s.procs[k].script != [] {
      var a := ServesOn(sp, x, k);
      return Do(a);
    }
    var k :| 0 <= k < |s.procs| && k !in x.failed && s.procs[k].phase != Phase.Left;
    var a := WaitsOn(sp, x, k);
    return Do(a);
  }

  /** Nothing can be destroyed: no late refusal, or only one leaf, or a root that came first. */
  ghost predicate Gentle(sp: Spec, x: Calls)
    requires Sized(sp)
  {
    sp.n == 2 || !LateRefusal(sp) || (x.ledger.order != [] && x.ledger.order[0] == sp.root)
  }

  lemma GentleKeeps(sp: Spec, x: Calls)
    requires CallsInv(sp, x) && Gentle(sp, x)
    ensures x.destroyed == {}
  {
    if c :| c in x.destroyed { Destroyed(sp, x, c); }
  }

  lemma EventKeeps(sp: Spec, x: Calls, e: Event)
    requires CallsInv(sp, x) && Possible(sp, x, e)
    ensures CallsInv(sp, Happens(sp, x, e))
    ensures x.ledger.order <= Happens(sp, x, e).ledger.order && x.destroyed <= Happens(sp, x, e).destroyed
  {
    match e
    case Do(a) =>
      DoKeeps(sp, x, a);
      OrderGrows(KindOf(sp), sp.n, x.ledger, a);
    case Fail(k) => FailKeeps(sp, x, k);
  }

  lemma ExtendCalls(sp: Spec, events: seq<Event>, e: Event)
    requires Sized(sp) && AfterCalls(sp, events).Some? && Possible(sp, AfterCalls(sp, events).value, e)
    ensures AfterCalls(sp, events + [e]) == Some(Happens(sp, AfterCalls(sp, events).value, e))
  {
    assert (events + [e])[..|events|] == events;
  }

  /** Effective events that can still happen. */
  ghost function Remaining(sp: Spec, x: Calls): (left: nat)
    requires CallsInv(sp, x)
  {
    PotentialBounded(KindOf(sp), sp.n, x.ledger);
    Potential(sp.n, x.ledger) + |Below(sp.n) - x.failed|
  }

  lemma EventDrains(sp: Spec, x: Calls, e: Event)
    requires CallsInv(sp, x) && Possible(sp, x, e)
    ensures CallsInv(sp, Happens(sp, x, e))
    ensures Remaining(sp, Happens(sp, x, e)) + (if e.Do? && !Effective(x.ledger, e.action) then 0 else 1)
         <= Remaining(sp, x)
  {
    EventKeeps(sp, x, e);
    match e
    case Do(a) => StepDrains(KindOf(sp), sp.n, x.ledger, a);
    case Fail(k) =>
      var rest := Below(sp.n) - x.failed;
      assert k in rest && Below(sp.n) - (x.failed + {k}) == rest - {k};
  }

  /** A run that nothing can be destroyed in, with so many effective events still to happen at most. */
  ghost predicate Within(sp: Spec, events: seq<Event>, left: nat) {
    && Sized(sp) && AfterCalls(sp, events).Some? && CallsInv(sp, AfterCalls(sp, events).value)
    && Gentle(sp, AfterCalls(sp, events).value) && Remaining(sp, AfterCalls(sp, events).value) <= left
  }

  lemma GentleStep(sp: Spec, events: seq<Event>, left: nat) returns (e: Event)
    requires Within(sp, events, left) && !Over(sp, AfterCalls(sp, events).value)
    ensures left > 0 && Within(sp, events + [e], left - 1)
    ensures AfterCalls(sp, events).value.ledger.order <= AfterCalls(sp, events + [e]).value.ledger.order
  {
    var x := AfterCalls(sp, events).value;
    GentleKeeps(sp, x);
    e := GoesOn(sp, x);
    EventDrains(sp, x, e);
    EventKeeps(sp, x, e);
    ExtendCalls(sp, events, e);
  }

  lemma {:induction false} GentlyCompletes(sp: Spec, events: seq<Event>, left: nat) returns (all: seq<Event>)
    requires Within(sp, events, left)
    ensures events <= all && AfterCalls(sp, all).Some? && Over(sp, AfterCalls(sp, all).value)
    ensures AfterCalls(sp, events).value.ledger.order <= AfterCalls(sp, all).value.ledger.order
    decreases left
  {
    if Over(sp, AfterCalls(sp, events).value) { return events; }
    var e := GentleStep(sp, events, left);
    all := GentlyCompletes(sp, events + [e], left - 1);
  }

  /** The run can be carried on until every call has returned. */
  ghost predicate Completable(sp: Spec, events: seq<Event>)
    requires Sized(sp)
  {
    exists all :: events <= all && AfterCalls(sp, all).Some? && Over(sp, AfterCalls(sp, all).value)
  }
}
