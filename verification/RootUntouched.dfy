/**
  Elements of the root's buffer that no transfer of a gather(v) writes, and runs that complete from
  given first arrivals: together they show which contributions can be lost.
 */
module RootUntouched {
  import opened Basics
  import opened Ledger
  import opened LedgerPlans
  import opened LedgerRuns
  import opened LedgerTheorems
  import opened LedgerProgress
  import opened Completion
  import opened RootedCollectives
  import opened RootedCalls
  import opened CallTheorems
  import opened CallCompletion

  // ---------- what a copy leaves alone ----------

  /** The transfer of leaf r, from either end, does not write element i. */
  predicate Misses(sp: Spec, r: nat, late: bool, i: nat)
    requires r < |sp.early| && r < |sp.late| && r < |sp.len|
  {
    var at := if late then sp.late[r] else sp.early[r];
    !Accepts(sp, r, late) || !(at <= i < at + sp.len[r])
  }

  lemma TransferMisses<V>(sp: Spec, order: seq<nat>, k: nat, it: Item, mem: seq<seq<V>>, r: nat, i: nat)
    requires !sp.toLeaves && Shape(sp, mem) && k < |order| && it.cookie < |order|
    requires forall j :: 0 <= j < |order| ==> order[j] < sp.n
    requires r < sp.n && r != sp.root && ServesLeaf(sp, order, k, it, r) && i < |mem[sp.root]|
    requires Misses(sp, r, order[k] == sp.root, i)
    ensures var after := Transfer(sp, order, k, it, mem)[sp.root];
      |after| == |mem[sp.root]| && after[i] == mem[sp.root][i]
  {
  }

  lemma CopyMisses<V>(sp: Spec, s: State, mem: seq<seq<V>>, k: nat, r: nat, i: nat)
    requires !sp.toLeaves && Shape(sp, mem) && Inv(KindOf(sp), sp.n, s) && WellFormed(sp.n, s)
    requires Enabled(KindOf(sp), sp.n, s, Copy(k)) && r < sp.n && r != sp.root
    requires ServesLeaf(sp, s.order, k, s.procs[k].script[0], r) && i < |mem[sp.root]|
    requires Misses(sp, r, s.order[k] == sp.root, i)
    ensures var after := Effect(sp, s, Copy(k), mem)[sp.root];
      |after| == |mem[sp.root]| && after[i] == mem[sp.root][i]
  {
    TransferMisses(sp, s.order, k, s.procs[k].script[0], mem, r, i);
  }

  /** Element i of the root's buffer is as it was. */
  ghost predicate Kept<V>(sp: Spec, acts: seq<Action>, init: seq<seq<V>>, i: nat)
    requires Shape(sp, init) && After(KindOf(sp), sp.n, acts).Some?
  {
    var mem := Buffers(sp, acts, init)[sp.root];
    |mem| == |init[sp.root]| && i < |mem| && mem[i] == init[sp.root][i]
  }

  /** The arrivals so far agree with a given beginning. */
  predicate Begins(order: seq<nat>, first: seq<nat>) { order <= first || first <= order }

  lemma BeganBefore(kind: Kind, n: nat, s: State, a: Action, first: seq<nat>)
    requires WellFormed(n, s) && Enabled(kind, n, s, a) && Begins(Next(kind, n, s, a).order, first)
    ensures Begins(s.order, first)
  {
    OrderGrows(kind, n, s, a);
  }

  // ---------- runs with given first arrivals ----------

  function Joins(first: seq<nat>): seq<Event> {
    if first == [] then [] else Joins(first[..|first| - 1]) + [Do(Join(first[|first| - 1]))]
  }

  ghost predicate Arrived(sp: Spec, events: seq<Event>, order: seq<nat>)
    requires Sized(sp)
  {
    AfterCalls(sp, events).Some? && AfterCalls(sp, events).value.ledger.order == order
  }

  lemma JoinNext(sp: Spec, events: seq<Event>, order: seq<nat>, r: nat)
    requires Sized(sp) && Arrived(sp, events, order) && |order| < sp.n && r < sp.n && r !in order
    ensures Arrived(sp, events + [Do(Join(r))], order + [r])
  {
    var s := AfterCalls(sp, events).value.ledger;
    JoinEnabled(KindOf(sp), sp.n, s, r);
    ExtendCalls(sp, events, Do(Join(r)));
    UncopiedJoin(KindOf(sp), sp.n, s, r);
  }

  ghost predicate Ranks(n: nat, first: seq<nat>) {
    NoDup(first) && |first| <= n && forall i :: 0 <= i < |first| ==> first[i] < n
  }

  lemma RanksBut(n: nat, first: seq<nat>)
    requires Ranks(n, first) && first != []
    ensures var m := |first| - 1;
      Ranks(n, first[..m]) && first[m] < n && first[m] !in first[..m] && first[..m] + [first[m]] == first
  {
  }

  lemma {:induction false} JoinsInOrder(sp: Spec, first: seq<nat>)
    requires Sized(sp) && Ranks(sp.n, first)
    ensures Arrived(sp, Joins(first), first)
  {
    if first != [] {
      var m := |first| - 1;
      RanksBut(sp.n, first);
      JoinsInOrder(sp, first[..m]);
      JoinNext(sp, Joins(first[..m]), first[..m], first[m]);
    }
  }

  /** The root's call has returned: its wait is over, or it was refused and returned the error. */
  ghost predicate Ended(sp: Spec, x: Calls, k: nat) {
    k < |x.ledger.order| && x.ledger.order[k] == sp.root && (k in x.failed || Completed(x.ledger, k))
  }

  /** A run in which the given ranks arrive first and the calls of all ranks return. */
  lemma CompleteAfter(sp: Spec, first: seq<nat>) returns (events: seq<Event>, k: nat)
    requires Sized(sp) && Ranks(sp.n, first) && (!LateRefusal(sp) || (first != [] && first[0] == sp.root))
    ensures AfterCalls(sp, events).Some?
    ensures var x := AfterCalls(sp, events).value; first <= x.ledger.order && Ended(sp, x, k)
  {
    JoinsInOrder(sp, first);
    AlwaysCalls(sp, Joins(first));
    events := GentlyCompletes(sp, Joins(first), Remaining(sp, AfterCalls(sp, Joins(first)).value));
    var s := AfterCalls(sp, events).value.ledger;
    Pigeonhole(s.order, sp.n, sp.root);
    k := IndexOf(s.order, sp.root);
  }

  // ---------- delivery ----------

  /** Every leaf's contribution stands in its segment of the root's buffer. */
  ghost predicate InPlace<V>(sp: Spec, init: seq<seq<V>>, buf: seq<V>)
    requires Legal(sp, init)
  {
    |buf| == |init[sp.root]| && forall r :: 0 <= r < sp.n && r != sp.root ==>
      buf[sp.early[r]..sp.early[r] + sp.len[r]] == init[r][..sp.len[r]]
  }

  /** The buffers after a run of calls. */
  ghost function CallBuffers<V>(sp: Spec, events: seq<Event>, init: seq<seq<V>>): (mem: seq<seq<V>>)
    requires Sized(sp) && Shape(sp, init) && AfterCalls(sp, events).Some?
    ensures |mem| == |init|
  {
    LedgerRun(sp, events);
    Buffers(sp, Acts(events), init)
  }

  /** Should the root's call have returned in this run, every contribution is in its place. */
  ghost predicate Delivers<V>(sp: Spec, events: seq<Event>, init: seq<seq<V>>, k: nat)
    requires Sized(sp)
  {
    Legal(sp, init) && AfterCalls(sp, events).Some? && Ended(sp, AfterCalls(sp, events).value, k) ==>
      InPlace(sp, init, CallBuffers(sp, events, init)[sp.root])
  }

  lemma CollectedInPlace<V>(sp: Spec, init: seq<seq<V>>, buf: seq<V>)
    requires Fits(sp, init) && |buf| == |init[sp.root]|
    requires forall r :: 0 <= r < sp.n && r != sp.root ==> Collected(sp, init, buf, r)
    ensures InPlace(sp, init, buf)
  {
    forall r | 0 <= r < sp.n && r != sp.root ensures buf[sp.early[r]..sp.early[r] + sp.len[r]] == init[r][..sp.len[r]] {
      assert Collected(sp, init, buf, r);
    }
  }

  /** Whenever the root's wait returns, whatever is not refused is in its place. */
  lemma {:induction false} WaitDelivers<V>(sp: Spec, events: seq<Event>, init: seq<seq<V>>, k: nat)
    requires !sp.toLeaves && Sized(sp) && Fits(sp, init) && Disjoint(sp) && AfterCalls(sp, events).Some?
    requires Ended(sp, AfterCalls(sp, events).value, k) && k !in AfterCalls(sp, events).value.failed
    ensures InPlace(sp, init, CallBuffers(sp, events, init)[sp.root])
  {
    LedgerRun(sp, events);
    RootCollects(sp, Acts(events), init, k);
    CollectedInPlace(sp, init, CallBuffers(sp, events, init)[sp.root]);
  }

  /** Contributing nothing, the leaves change nothing. */
  lemma {:induction false} NothingDelivered<V>(sp: Spec, events: seq<Event>, init: seq<seq<V>>)
    requires !sp.toLeaves && Sized(sp) && Fits(sp, init) && Disjoint(sp) && Empty(sp) && AfterCalls(sp, events).Some?
    ensures InPlace(sp, init, CallBuffers(sp, events, init)[sp.root])
  {
    LedgerRun(sp, events);
    BuffersInv(sp, Acts(events), init);
  }

  lemma {:induction false} FitDelivers<V>(sp: Spec, events: seq<Event>, init: seq<seq<V>>, k: nat)
    requires !sp.toLeaves && Sized(sp) && Disjoint(sp) && (Admitted(sp) || Empty(sp))
    requires forall r :: 0 <= r < sp.n && r != sp.root ==> sp.early[r] == sp.late[r] || sp.len[r] == 0
    ensures Delivers(sp, events, init, k)
  {
    if Legal(sp, init) && AfterCalls(sp, events).Some? && Ended(sp, AfterCalls(sp, events).value, k) {
      if Empty(sp) {
        NothingDelivered(sp, events, init);
      } else {
        NeverRefused(sp, events);
        WaitDelivers(sp, events, init, k);
      }
    }
  }

  lemma {:induction false} BelowSum(s: seq<nat>, i: nat)
    requires i < |s|
    ensures s[i] <= SumOf(s)
  {
    if i < |s| - 1 { BelowSum(s[..|s| - 1], i); }
  }

  function Filled<V>(len: nat, v: V): (s: seq<V>)
    ensures |s| == len && forall i :: 0 <= i < len ==> s[i] == v
  {
    seq(len, _ => v)
  }

  /** The root's buffer is filled with one value, the leaves' with another. */
  function Filling<V>(sp: Spec, a: V, b: V, x: nat): seq<V>
    requires |sp.early| == |sp.len| == sp.n && x < sp.n
  {
    if x == sp.root then Filled(SumOf(sp.early) + SumOf(sp.len), a) else Filled(sp.len[x], b)
  }

  function TwoValues<V>(sp: Spec, a: V, b: V): (init: seq<seq<V>>)
    requires |sp.early| == |sp.len| == sp.n
    ensures |init| == sp.n && forall x :: 0 <= x < sp.n ==> init[x] == Filling(sp, a, b, x)
  {
    seq(sp.n, x requires 0 <= x < sp.n => Filling(sp, a, b, x))
  }

  lemma TwoValuesLegal<V>(sp: Spec, a: V, b: V)
    requires Sized(sp)
    ensures Legal(sp, TwoValues(sp, a, b))
  {
    forall r | 0 <= r < sp.n ensures sp.early[r] + sp.len[r] <= SumOf(sp.early) + SumOf(sp.len) {
      BelowSum(sp.early, r);
      BelowSum(sp.len, r);
    }
  }

  lemma TwoValuesAt<V>(sp: Spec, a: V, b: V, r: nat, at: nat)
    requires |sp.early| == |sp.len| == sp.n && r < sp.n
    ensures |TwoValues(sp, a, b)| == sp.n
    ensures r == sp.root && at < |TwoValues(sp, a, b)[r]| ==> TwoValues(sp, a, b)[r][at] == a
    ensures r != sp.root && at < sp.len[r] ==> |TwoValues(sp, a, b)[r]| == sp.len[r] && TwoValues(sp, a, b)[r][at] == b
  {
  }

  lemma KeptIsMissing<V>(sp: Spec, buf: seq<V>, r: nat, i: nat, a: V, b: V)
    requires |sp.early| == |sp.len| == sp.n && a != b && Legal(sp, TwoValues(sp, a, b))
    requires r < sp.n && r != sp.root && sp.early[r] <= i < sp.early[r] + sp.len[r]
    requires i < |buf| && i < |TwoValues(sp, a, b)[sp.root]| && buf[i] == TwoValues(sp, a, b)[sp.root][i]
    ensures !InPlace(sp, TwoValues(sp, a, b), buf)
  {
    var at := i - sp.early[r];
    TwoValuesAt(sp, a, b, sp.root, i);
    TwoValuesAt(sp, a, b, r, at);
    Differ(buf, sp.early[r], TwoValues(sp, a, b)[r], sp.len[r], at);
  }

  lemma Differ<V>(buf: seq<V>, from: nat, src: seq<V>, len: nat, at: nat)
    requires at < len <= |src| && from + at < |buf| && buf[from + at] != src[at]
    ensures from + len <= |buf| ==> buf[from..from + len] != src[..len]
  {
    if from + len <= |buf| { assert buf[from..from + len][at] != src[..len][at]; }
  }

  /** An element of leaf r's segment that is kept was not delivered. */
  lemma {:induction false} KeptIsLost<V>(sp: Spec, events: seq<Event>, k: nat, r: nat, i: nat, a: V, b: V)
    requires !sp.toLeaves && Sized(sp) && a != b && Legal(sp, TwoValues(sp, a, b))
    requires AfterCalls(sp, events).Some? && Ended(sp, AfterCalls(sp, events).value, k)
    requires After(KindOf(sp), sp.n, Acts(events)).Some?
    requires r < sp.n && r != sp.root && sp.early[r] <= i < sp.early[r] + sp.len[r]
    requires Kept(sp, Acts(events), TwoValues(sp, a, b), i)
    ensures !Delivers(sp, events, TwoValues(sp, a, b), k)
  {
    KeptIsMissing(sp, CallBuffers(sp, events, TwoValues(sp, a, b))[sp.root], r, i, a, b);
  }
}
