/**
  One collective operation on one slot, as a transition system over the steps that other
  processes can observe: the join section under the slot lock, `move_to_pending`, the copy of a
  transfer, its `notify_done`, the owner's wait (with its condition variable), leaving, and
  reclaiming a finished cookie.

  A rank whose call returns an error early (`RootedCalls`) is a rank that takes no further step here.

  Ranks are numbered by arrival: position k is the k-th rank that joined, `order[k]` is its rank
  number, and the cookie created by position k (if any) is cookie k.
 */
module Ledger {
  import opened Basics

  /** Rooted covers bcast and scatter (data flows to the leaves) and gather(v) (to the root). */
  datatype Kind =
    | Rooted(root: nat, toLeaves: bool)
    | Allgather
    | AllreduceChain
    | AllreduceInPlace
    | Scan

  /** What a rank still has to do after its join section. Read and Write name the cookie served. */
  datatype Item = Move(cookie: nat) | Read(cookie: nat) | Write(cookie: nat)

  datatype Place = Nowhere | InBox | InTodo | InPending | Reclaimed

  datatype Cookie = Cookie(place: Place, busy: int, used: int)

  /** Blocked: asleep on the condition variable. Signalled: notified, not yet running again. */
  datatype Phase = Serving | Blocked | Signalled | Returned | Left

  /** `copied`: the head transfer's bytes are in place but its notification is outstanding. */
  datatype Proc = Proc(script: seq<Item>, copied: bool, handle: nat, phase: Phase)

  datatype State = State(order: seq<nat>, box: seq<nat>, cookies: seq<Cookie>, procs: seq<Proc>)

  const INIT := State([], [], [], [])

  // ---------- the join section ----------

  /** The effect of one join section, computed from the arrival order and the slot's box. */
  datatype Plan = Plan(
    touched: Option<nat>,   // the cookie served by a transfer made while the slot is still locked
    todo: seq<nat>,         // cookies spliced into this rank's private list
    retired: seq<nat>,      // cookies moved straight to their owner's pending list
    box: seq<nat>,          // what stays in the slot's box
    busy: int,              // initial count of an own cookie
    handle: nat,            // the request: the own cookie, or a cookie joined
    script: seq<Item>)

  function Serve(todo: seq<nat>, write: bool): seq<Item> {
    if todo == [] then [] else
      [Move(todo[0]), if write then Write(todo[0]) else Read(todo[0])] + Serve(todo[1..], write)
  }

  /** Scan and exscan: fetch the first contribution, then fetch and answer each later one. */
  function Sweep(todo: seq<nat>): seq<Item> {
    if todo == [] then [] else
      [Move(todo[0]), Read(todo[0]), Write(todo[0])] + Sweep(todo[1..])
  }

  /** The positions of the ranks 0, 1, ..., which is the box sorted by source rank. */
  function BySource(order: seq<nat>): (todo: seq<nat>)
    requires forall r :: 0 <= r < |order| ==> r in order
  {
    seq(|order|, (r: nat) requires r < |order| => IndexOf(order, r))
  }

  predicate Sizes(kind: Kind, n: nat) {
    (n >= 2 || (n == 1 && kind.Scan?)) && (kind.Rooted? ==> kind.root < n)
  }

  predicate Joinable(kind: Kind, n: nat, order: seq<nat>, box: seq<nat>, r: nat) {
    && Sizes(kind, n)
    && |order| < n && r < n && r !in order
    && (0 < |order| ==> box != [])
    && (forall i :: 0 <= i < |box| ==> box[i] < |order|)
    && (kind.Scan? && |order| + 1 == n ==> forall q :: 0 <= q < n ==> q in order + [r])
  }

  function RootPlan(n: nat, toLeaves: bool, me: nat, box: seq<nat>): Plan
    requires me + 1 == n ==> box != []
    requires me < n
  {
    if me + 1 == n then Plan(None, box, [], [], 0, box[|box| - 1], Serve(box, toLeaves))
    else Plan(None, box, [], [me], n - (me + 1), me, Serve(box, toLeaves))
  }

  function LeafPlan(n: nat, root: nat, toLeaves: bool, order: seq<nat>, box: seq<nat>): Plan
    requires box != [] ==> box[0] < |order|
  {
    var me := |order|;
    if box != [] && order[box[0]] == root then
      var item := if toLeaves then Read(box[0]) else Write(box[0]);
      if me + 1 == n then Plan(None, [], [box[0]], box[1..], 0, box[0], [item])
      else Plan(None, [], [], box, 0, box[0], [item])
    else Plan(None, [], [], box + [me], 1, me, [])
  }

  function AllgatherPlan(n: nat, me: nat, box: seq<nat>): Plan
    requires 0 < me ==> box != []
  {
    if me == 0 then Plan(None, [], [], box + [me], n, me, [])
    else if me + 1 != n then Plan(Some(box[0]), [], [], box + [me], 1, me, [])
    else Plan(Some(box[0]), box, [], [], 0, box[0], [Move(box[0]), Read(box[0])] + Serve(box[1..], true))
  }

  function AllreducePlan(n: nat, me: nat, box: seq<nat>, chained: bool): Plan
    requires 0 < me || me + 1 == n ==> box != []
  {
    var touched := if chained && me != 0 then Some(box[|box| - 1]) else None;
    if me + 1 != n then Plan(touched, [], [], box + [me], if chained then 2 else 1, me, [])
    else Plan(touched, box, [], [], 0, box[|box| - 1], Serve(box, true))
  }

  function ScanPlan(n: nat, order: seq<nat>, box: seq<nat>, r: nat): Plan
    requires |order| + 1 == n ==> forall q :: 0 <= q < n ==> q in order + [r]
  {
    var me := |order|;
    var busy := if r == 0 then 1 else 2;
    if me + 1 != n then Plan(None, [], [], box + [me], busy, me, [])
    else
      var todo := BySource(order + [r]);
      Plan(None, box + [me], [], [], busy, me, [Move(todo[0]), Read(todo[0])] + Sweep(todo[1..]))
  }

  function PlanFor(kind: Kind, n: nat, order: seq<nat>, box: seq<nat>, r: nat): (p: Plan)
    requires Joinable(kind, n, order, box, r)
    ensures p.touched.Some? ==> p.touched.value < |order|
  {
    match kind
    case Rooted(root, toLeaves) =>
      if r == root then RootPlan(n, toLeaves, |order|, box) else LeafPlan(n, root, toLeaves, order, box)
    case Allgather => AllgatherPlan(n, |order|, box)
    case AllreduceChain => AllreducePlan(n, |order|, box, true)
    case AllreduceInPlace => AllreducePlan(n, |order|, box, false)
    case Scan => ScanPlan(n, order, box, r)
  }

  // ---------- steps ----------

  datatype Action =
    | Join(rank: nat)
    | Relink(pos: nat)    // move_to_pending of the cookie at the head of the script
    | Copy(pos: nat)
    | Notify(pos: nat)
    | Wait(pos: nat)
    | Wake(pos: nat)      // the condition variable returns, possibly spuriously
    | Leave(pos: nat)
    | Reclaim(cookie: nat)

  predicate WellFormed(n: nat, s: State) {
    && |s.cookies| == |s.order| == |s.procs|
    && (forall i :: 0 <= i < |s.box| ==> s.box[i] < |s.order|)
    && (forall k :: 0 <= k < |s.procs| ==>
          && s.procs[k].handle < |s.procs|
          && (s.procs[k].script != [] ==> s.procs[k].script[0].cookie < |s.procs|))
  }

  /** `notify_done`: count down, and signal the owner when it sleeps on this very cookie. */
  function NotifyDone(s: State, c: nat): State
    requires c < |s.cookies| == |s.procs|
  {
    var busy := s.cookies[c].busy - 1;
    var s1 := s.(cookies := s.cookies[c := s.cookies[c].(busy := busy)]);
    if busy == 0 && s.procs[c].phase == Blocked && s.procs[c].handle == c
    then s1.(procs := s.procs[c := s.procs[c].(phase := Signalled)]) else s1
  }

  function Placed(ck: Cookie, c: nat, p: Plan): Cookie {
    if c in p.todo then ck.(place := InTodo)
    else if c in p.retired then ck.(place := InPending)
    else ck
  }

  /** The state after the transfer a join section may make under the slot lock. */
  function Touched(s: State, p: Plan): State
    requires |s.cookies| == |s.procs|
    requires p.touched.Some? ==> p.touched.value < |s.procs|
  {
    if p.touched.Some? then NotifyDone(s, p.touched.value) else s
  }

  function Joined(ck: Cookie, c: nat, p: Plan): Cookie {
    if c == p.handle then ck.(used := ck.used + 1) else ck
  }

  function ApplyPlan(s: State, r: nat, p: Plan): State
    requires |s.cookies| == |s.order| == |s.procs|
    requires p.touched.Some? ==> p.touched.value < |s.order|
  {
    var me := |s.order|;
    var mid := Touched(s, p);
    var own := if p.handle == me then Cookie(InBox, p.busy, 1) else Cookie(Nowhere, 0, 0);
    var prior := seq(me, (c: nat) requires c < me => Placed(Joined(mid.cookies[c], c, p), c, p));
    State(s.order + [r], p.box, prior + [Placed(own, me, p)], mid.procs + [Proc(p.script, false, p.handle, Serving)])
  }

  predicate Enabled(kind: Kind, n: nat, s: State, a: Action)
    requires WellFormed(n, s)
  {
    match a
    case Join(r) => Joinable(kind, n, s.order, s.box, r)
    case Relink(k) => k < |s.procs| && s.procs[k].script != [] && s.procs[k].script[0].Move?
    case Copy(k) => k < |s.procs| && s.procs[k].script != [] && !s.procs[k].script[0].Move? && !s.procs[k].copied
    case Notify(k) => k < |s.procs| && s.procs[k].script != [] && !s.procs[k].script[0].Move? && s.procs[k].copied
    case Wait(k) => k < |s.procs| && s.procs[k].script == [] && s.procs[k].phase == Serving
    case Wake(k) => k < |s.procs| && (s.procs[k].phase == Blocked || s.procs[k].phase == Signalled)
    case Leave(k) => k < |s.procs| && s.procs[k].phase == Returned
    case Reclaim(c) => c < |s.cookies| && s.cookies[c].place == InPending && s.cookies[c].used == 0
  }

  function SetProc(s: State, k: nat, p: Proc): State
    requires k < |s.procs|
  {
    s.(procs := s.procs[k := p])
  }

  function Next(kind: Kind, n: nat, s: State, a: Action): State
    requires WellFormed(n, s) && Enabled(kind, n, s, a)
  {
    match a
    case Join(r) => ApplyPlan(s, r, PlanFor(kind, n, s.order, s.box, r))
    case Relink(k) =>
      var c := s.procs[k].script[0].cookie;
      SetProc(s, k, s.procs[k].(script := s.procs[k].script[1..]))
        .(cookies := s.cookies[c := s.cookies[c].(place := InPending)])
    case Copy(k) => SetProc(s, k, s.procs[k].(copied := true))
    case Notify(k) =>
      NotifyDone(SetProc(s, k, s.procs[k].(script := s.procs[k].script[1..], copied := false)),
                 s.procs[k].script[0].cookie)
    case Wait(k) =>
      // only the owner blocks; a rank that borrowed a cookie returns at once
      var sleeps := s.procs[k].handle == k && s.cookies[k].busy != 0;
      SetProc(s, k, s.procs[k].(phase := if sleeps then Blocked else Returned))
    case Wake(k) =>
      SetProc(s, k, s.procs[k].(phase := if s.cookies[s.procs[k].handle].busy != 0 then Blocked else Returned))
    case Leave(k) =>
      var c := s.procs[k].handle;
      SetProc(s, k, s.procs[k].(phase := Left))
        .(cookies := s.cookies[c := s.cookies[c].(used := s.cookies[c].used - 1)])
    case Reclaim(c) => s.(cookies := s.cookies[c := s.cookies[c].(place := Reclaimed)])
  }

  // ---------- what is owed ----------

  /** Items of a script on cookie c: its relinking (`move`) or its transfers. */
  ghost function Tally(script: seq<Item>, move: bool, c: nat): nat {
    if script == [] then 0 else Weight(script[0], move, c) + Tally(script[1..], move, c)
  }

  ghost function Weight(it: Item, move: bool, c: nat): nat {
    if it.cookie == c && it.Move? == move then 1 else 0
  }

  /** The same, over everything that joined ranks still have to do. */
  ghost function Owed(procs: seq<Proc>, move: bool, c: nat): nat {
    if procs == [] then 0 else Owed(procs[..|procs| - 1], move, c) + Tally(procs[|procs| - 1].script, move, c)
  }

  ghost function Holds(p: Proc, c: nat): nat {
    if p.phase != Left && p.handle == c then 1 else 0
  }

  /** Request handles on cookie c that have not been left. */
  ghost function LiveHandles(procs: seq<Proc>, c: nat): nat {
    if procs == [] then 0 else LiveHandles(procs[..|procs| - 1], c) + Holds(procs[|procs| - 1], c)
  }

  ghost predicate RootJoined(kind: Kind, order: seq<nat>) {
    kind.Rooted? && kind.root in order
  }

  /** Transfers on cookie c that ranks which have not joined yet will make. */
  ghost function Future(kind: Kind, n: nat, order: seq<nat>, c: nat): nat
    requires |order| <= n
  {
    var unjoined := n - |order|;
    if unjoined == 0 then 0 else
    match kind
    case Rooted(root, _) =>
      if root !in order then 1 else if IndexOf(order, root) == c then unjoined else 0
    case Allgather => if c == 0 then unjoined + 1 else 1
    case AllreduceChain => if c + 1 == |order| then 2 else 1
    case AllreduceInPlace => 1
    case Scan => if c < |order| && order[c] == 0 then 1 else 2
  }

  /** The slot's box as a function of the arrivals so far. */
  function BoxOf(kind: Kind, n: nat, order: seq<nat>): (box: seq<nat>)
    ensures box == [] <==> (order == [] || |order| == n)
    ensures forall i :: 0 <= i < |box| ==> box[i] < |order|
    ensures NoDup(box)
  {
    if |order| == n then []
    else if kind.Rooted? && kind.root in order then [IndexOf(order, kind.root)]
    else Iota(|order|)
  }

  lemma {:induction false} OwedUpdate(procs: seq<Proc>, k: nat, p: Proc, move: bool, c: nat)
    requires k < |procs|
    ensures Tally(procs[k].script, move, c) <= Owed(procs, move, c)
    ensures Owed(procs[k := p], move, c)
         == Owed(procs, move, c) - Tally(procs[k].script, move, c) + Tally(p.script, move, c)
  {
    var m := |procs| - 1;
    if k == m {
      assert procs[k := p][..m] == procs[..m];
    } else {
      OwedUpdate(procs[..m], k, p, move, c);
      assert procs[k := p][..m] == procs[..m][k := p];
    }
  }

  lemma {:induction false} LiveHandlesUpdate(procs: seq<Proc>, k: nat, p: Proc, c: nat)
    requires k < |procs|
    ensures Holds(procs[k], c) <= LiveHandles(procs, c)
    ensures LiveHandles(procs[k := p], c) == LiveHandles(procs, c) - Holds(procs[k], c) + Holds(p, c)
  {
    var m := |procs| - 1;
    if k == m {
      assert procs[k := p][..m] == procs[..m];
    } else {
      LiveHandlesUpdate(procs[..m], k, p, c);
      assert procs[k := p][..m] == procs[..m][k := p];
    }
  }
}
